/** Chunks of a report for the search index (app/services/ingest.py, `_build_chunks`). */
module Chunking {
  import opened Text

  const LONG_TEXT_CHARS := 1500

  const BREAK := "\n\n"

  /** `s.split("\n\n")` */
  function Split(s: string): (r: seq<string>)
    ensures r != []
  {
    if |s| < 2 then [s]
    else if s[..2] == BREAK then [""] + Split(s[2..])
    else
      var r := Split(s[1..]);
      [[s[0]] + r[0]] + r[1..]
  }

  function LeftStrip(u: Unicode, s: string): string {
    if s != "" && s[0] in u.space then LeftStrip(u, s[1..]) else s
  }

  function RightStrip(u: Unicode, s: string): string {
    if s != "" && s[|s| - 1] in u.space then RightStrip(u, s[..|s| - 1]) else s
  }

  /** `s.strip()` */
  function Strip(u: Unicode, s: string): string { RightStrip(u, LeftStrip(u, s)) }

  /** `[p.strip() for p in parts if p.strip()]` */
  function Paragraphs(u: Unicode, parts: seq<string>): seq<string> {
    if parts == [] then []
    else (if Strip(u, parts[0]) == "" then [] else [Strip(u, parts[0])]) + Paragraphs(u, parts[1..])
  }

  function BuildChunks(u: Unicode, summary: string, raw: string): seq<string> {
    var whole := [summary + BREAK + raw];
    if |raw| <= LONG_TEXT_CHARS then whole
    else
      var paragraphs := Paragraphs(u, Split(raw));
      if paragraphs == [] then whole else [summary + BREAK + paragraphs[0]] + paragraphs[1..]
  }

  // ---------- what splitting and stripping keep ----------

  lemma ConcatOne(s: string)
    ensures Concat([s]) == s
  {
    assert [s][1..] == [];
    assert Concat([]) == "";
  }

  lemma ConcatEmptyFirst(r: seq<string>)
    ensures Concat([""] + r) == Concat(r)
  {
    assert ([""] + r)[1..] == r;
  }

  /** One character in front of the first piece. */
  lemma ConcatLonger(c: char, r: seq<string>)
    requires r != []
    ensures Concat([[c] + r[0]] + r[1..]) == [c] + Concat(r)
  {
    var longer := [[c] + r[0]] + r[1..];
    assert longer[1..] == r[1..];
    assert ([c] + r[0]) + Concat(r[1..]) == [c] + (r[0] + Concat(r[1..]));
  }

  lemma {:induction false} SplitKeeps(u: Unicode, s: string)
    requires u.Valid()
    ensures NoSpace(u, Concat(Split(s))) == NoSpace(u, s)
    decreases |s|
  {
    hide NoSpace;
    hide Concat;
    if |s| < 2 {
      ConcatOne(s);
    } else if s[..2] == BREAK {
      var rest := s[2..];
      SplitKeeps(u, rest);
      ConcatEmptyFirst(Split(rest));
      assert s == s[..2] + rest;
      NoSpaceConcat(u, BREAK, rest);
      BreakIsSpace(u);
      assert "" + NoSpace(u, rest) == NoSpace(u, rest);
    } else {
      SplitKeepsChar(u, s);
    }
  }

  lemma SplitKeepsChar(u: Unicode, s: string)
    requires u.Valid() && |s| >= 2 && s[..2] != BREAK
    ensures NoSpace(u, Concat(Split(s))) == NoSpace(u, s)
    decreases |s|, 0
  {
    hide NoSpace;
    hide Concat;
    var rest := s[1..];
    var r := Split(rest);
    SplitKeeps(u, rest);
    ConcatLonger(s[0], r);
    NoSpaceConcat(u, [s[0]], Concat(r));
    NoSpaceConcat(u, [s[0]], rest);
    assert s == [s[0]] + rest;
  }

  lemma BreakIsSpace(u: Unicode)
    requires u.Valid()
    ensures NoSpace(u, BREAK) == ""
  {
    assert AsciiSpace('\n') && BREAK == ['\n'] + ['\n'];
    assert NoSpace(u, ['\n']) == "";
    NoSpaceConcat(u, ['\n'], ['\n']);
  }

  lemma {:induction false} LeftStripKeeps(u: Unicode, s: string)
    ensures NoSpace(u, LeftStrip(u, s)) == NoSpace(u, s)
    ensures LeftStrip(u, s) == "" || LeftStrip(u, s)[0] !in u.space
  {
    if s != "" && s[0] in u.space {
      LeftStripKeeps(u, s[1..]);
    }
  }

  lemma {:induction false} RightStripKeeps(u: Unicode, s: string)
    ensures NoSpace(u, RightStrip(u, s)) == NoSpace(u, s)
    ensures RightStrip(u, s) <= s
    ensures RightStrip(u, s) == "" || RightStrip(u, s)[|RightStrip(u, s)| - 1] !in u.space
  {
    if s != "" && s[|s| - 1] in u.space {
      RightStripKeeps(u, s[..|s| - 1]);
      NoSpaceConcat(u, s[..|s| - 1], [s[|s| - 1]]);
      assert s[..|s| - 1] + [s[|s| - 1]] == s;
    }
  }

  /** Not empty, and neither end is white space. */
  predicate Trimmed(u: Unicode, p: string) {
    p != "" && p[0] !in u.space && p[|p| - 1] !in u.space
  }

  lemma StripKeeps(u: Unicode, s: string)
    ensures NoSpace(u, Strip(u, s)) == NoSpace(u, s)
    ensures Strip(u, s) == "" || Trimmed(u, Strip(u, s))
  {
    LeftStripKeeps(u, s);
    RightStripKeeps(u, LeftStrip(u, s));
  }

  lemma {:induction false} ParagraphsKeep(u: Unicode, parts: seq<string>)
    ensures NoSpace(u, Concat(Paragraphs(u, parts))) == NoSpace(u, Concat(parts))
    ensures forall p :: p in Paragraphs(u, parts) ==> Trimmed(u, p)
  {
    hide Strip;
    hide Trimmed;
    if parts != [] {
      var first, rest := Strip(u, parts[0]), Paragraphs(u, parts[1..]);
      StripKeeps(u, parts[0]);
      ParagraphsKeep(u, parts[1..]);
      NoSpaceConcat(u, parts[0], Concat(parts[1..]));
      NoSpaceConcat(u, first, Concat(rest));
      assert first == "" ==> Paragraphs(u, parts) == rest;
      assert first != "" ==> ([first] + rest)[1..] == rest;
    }
  }

  // ---------- no chunk but the first spans a blank line ----------

  predicate BreakAt(p: string, i: nat) {
    i + 1 < |p| && p[i] == p[i + 1] == '\n'
  }

  /** A blank line in the text. */
  predicate HasBreak(p: string) {
    exists i :: 0 <= i < |p| && BreakAt(p, i)
  }

  lemma {:induction false} SplitPieces(s: string)
    ensures forall p :: p in Split(s) ==> !HasBreak(p)
    ensures Split(s)[0] <= s
  {
    if |s| >= 2 && s[..2] == BREAK {
      SplitPieces(s[2..]);
    } else if |s| >= 2 {
      var r := Split(s[1..]);
      SplitPieces(s[1..]);
      assert s == [s[0]] + s[1..];
      NoBreakHead(s, r[0]);
    }
  }

  lemma NoBreakHead(s: string, w: string)
    requires |s| >= 2 && s[..2] != BREAK && w <= s[1..] && !HasBreak(w)
    ensures !HasBreak([s[0]] + w)
  {
    var v := [s[0]] + w;
    forall i | 0 <= i < |v| ensures !BreakAt(v, i) {
      if i == 0 {
        assert w != "" ==> w[0] == s[1];
        assert s[..2] == [s[0], s[1]];
      } else {
        assert !BreakAt(w, i - 1);
      }
    }
  }

  lemma {:induction false} StripNoBreak(u: Unicode, s: string)
    requires !HasBreak(s)
    ensures !HasBreak(Strip(u, s))
  {
    LeftNoBreak(u, s);
    RightStripKeeps(u, LeftStrip(u, s));
    NoBreakPrefix(LeftStrip(u, s), Strip(u, s));
  }

  lemma NoBreakPrefix(s: string, p: string)
    requires !HasBreak(s) && p <= s
    ensures !HasBreak(p)
  {
    forall i | 0 <= i < |p| ensures !BreakAt(p, i) {
      assert !BreakAt(s, i);
    }
  }

  lemma {:induction false} LeftNoBreak(u: Unicode, s: string)
    requires !HasBreak(s)
    ensures !HasBreak(LeftStrip(u, s))
  {
    if s != "" && s[0] in u.space {
      var t := s[1..];
      forall i | 0 <= i < |t| ensures !BreakAt(t, i) {
        assert !BreakAt(s, i + 1);
      }
      LeftNoBreak(u, t);
    }
  }

  lemma {:induction false} ParagraphsNoBreak(u: Unicode, parts: seq<string>)
    requires forall p :: p in parts ==> !HasBreak(p)
    ensures forall p :: p in Paragraphs(u, parts) ==> !HasBreak(p)
  {
    hide Strip;
    hide HasBreak;
    if parts != [] {
      StripNoBreak(u, parts[0]);
      ParagraphsNoBreak(u, parts[1..]);
    }
  }

  // ---------- the main result ----------

  /** What the chunks hold besides the summary and the blank line behind it. */
  function Body(summary: string, chunks: seq<string>): string
    requires chunks != [] && |chunks[0]| >= |summary| + 2
  {
    chunks[0][|summary| + 2..] + Concat(chunks[1..])
  }

  /** Chunking loses only white space, and short texts lose nothing. */
  lemma ChunksKeepText(u: Unicode, summary: string, raw: string)
    requires u.Valid()
    ensures var chunks := BuildChunks(u, summary, raw);
            && chunks != [] && summary + BREAK <= chunks[0]
            && NoSpace(u, Body(summary, chunks)) == NoSpace(u, raw)
            && (|raw| <= LONG_TEXT_CHARS ==> Body(summary, chunks) == raw)
            && (forall i :: 0 < i < |chunks| ==> Trimmed(u, chunks[i]) && !HasBreak(chunks[i]))
  {
    hide Split;
    hide Trimmed;
    hide NoSpace;
    hide HasBreak;
    var chunks := BuildChunks(u, summary, raw);
    var paragraphs := Paragraphs(u, Split(raw));
    if |raw| <= LONG_TEXT_CHARS || paragraphs == [] {
      OneChunk(summary, raw);
    } else {
      SplitKeeps(u, raw);
      ParagraphsKeep(u, Split(raw));
      SplitPieces(raw);
      ParagraphsNoBreak(u, Split(raw));
      ChunkBody(summary, paragraphs);
      assert forall i :: 0 < i < |chunks| ==> chunks[i] == paragraphs[i];
    }
  }

  lemma OneChunk(summary: string, raw: string)
    ensures Body(summary, [summary + BREAK + raw]) == raw
    ensures summary + BREAK <= summary + BREAK + raw
  {
    var chunk := summary + BREAK + raw;
    assert Concat([chunk][1..]) == "";
    assert chunk[|summary| + 2..] == raw;
  }

  lemma ChunkBody(summary: string, paragraphs: seq<string>)
    requires paragraphs != []
    ensures var chunks := [summary + BREAK + paragraphs[0]] + paragraphs[1..];
            summary + BREAK <= chunks[0] && Body(summary, chunks) == Concat(paragraphs)
  {
    var first := summary + BREAK + paragraphs[0];
    var chunks := [first] + paragraphs[1..];
    assert chunks[1..] == paragraphs[1..];
    assert first[|summary| + 2..] == paragraphs[0];
  }

  // ---------- where a text is cut ----------

  /** `"\n\n".join(parts)` */
  function JoinBreaks(parts: seq<string>): string
    requires parts != []
  {
    if |parts| == 1 then parts[0] else parts[0] + BREAK + JoinBreaks(parts[1..])
  }

  lemma {:induction false} SplitJoins(s: string)
    ensures JoinBreaks(Split(s)) == s
    decreases |s|
  {
    if |s| >= 2 && s[..2] == BREAK {
      SplitJoins(s[2..]);
      assert ([""] + Split(s[2..]))[1..] == Split(s[2..]);
      assert s == "" + BREAK + s[2..];
    } else if |s| >= 2 {
      var r := Split(s[1..]);
      SplitJoins(s[1..]);
      assert ([[s[0]] + r[0]] + r[1..])[1..] == r[1..];
      assert s == [s[0]] + s[1..];
    }
  }

  /** Behind a piece that is not the last, the cut comes at the first blank line. */
  ghost predicate CutsFirst(parts: seq<string>) {
    forall i :: 0 <= i < |parts| ==> !HasBreak(parts[i]) && (i + 1 < |parts| ==> !HasBreak(parts[i] + "\n"))
  }

  lemma {:induction false} SplitCutsFirst(s: string)
    ensures CutsFirst(Split(s))
    ensures |Split(s)| > 1 ==> Split(s)[0] + BREAK <= s
    ensures |Split(s)| == 1 ==> Split(s)[0] == s
    decreases |s|
  {
    if |s| < 2 {
    } else if s[..2] == BREAK {
      SplitCutsFirst(s[2..]);
      assert !HasBreak("") && !HasBreak("" + "\n");
      assert "" + BREAK == s[..2];
    } else {
      var r := Split(s[1..]);
      SplitCutsFirst(s[1..]);
      FirstPieceLonger(s, r);
    }
  }

  lemma FirstPieceLonger(s: string, r: seq<string>)
    requires |s| >= 2 && s[..2] != BREAK && r != [] && CutsFirst(r)
    requires (|r| > 1 ==> r[0] + BREAK <= s[1..]) && (|r| == 1 ==> r[0] == s[1..])
    ensures var longer := [[s[0]] + r[0]] + r[1..];
            && CutsFirst(longer)
            && (|r| > 1 ==> longer[0] + BREAK <= s) && (|r| == 1 ==> longer[0] == s)
  {
    hide HasBreak;
    var longer := [[s[0]] + r[0]] + r[1..];
    assert s == [s[0]] + s[1..];
    if |r| > 1 {
      assert r[0] + BREAK == (r[0] + "\n") + "\n";
      NoBreakHead(s, r[0]);
      NoBreakHead(s, r[0] + "\n");
      assert [s[0]] + (r[0] + "\n") == ([s[0]] + r[0]) + "\n";
      assert [s[0]] + (r[0] + BREAK) == longer[0] + BREAK;
    } else {
      NoBreakHead(s, r[0]);
    }
    forall i | 0 < i < |longer| ensures longer[i] == r[i] {
    }
  }

  /** Splitting cuts at the blank lines, at the first one each time, and nowhere else. */
  lemma SplitIsExact(s: string)
    ensures JoinBreaks(Split(s)) == s && CutsFirst(Split(s))
  {
    SplitJoins(s);
    SplitCutsFirst(s);
  }

  // ---------- what stripping takes ----------

  predicate AllSpace(u: Unicode, s: string) {
    forall i :: 0 <= i < |s| ==> s[i] in u.space
  }

  lemma {:induction false} LeftStripTakes(u: Unicode, s: string) returns (a: string)
    ensures AllSpace(u, a) && s == a + LeftStrip(u, s)
  {
    if s != "" && s[0] in u.space {
      var rest := LeftStripTakes(u, s[1..]);
      a := [s[0]] + rest;
      assert s == [s[0]] + s[1..];
    } else {
      a := "";
    }
  }

  lemma {:induction false} RightStripTakes(u: Unicode, s: string) returns (b: string)
    ensures AllSpace(u, b) && s == RightStrip(u, s) + b
  {
    if s != "" && s[|s| - 1] in u.space {
      var rest := RightStripTakes(u, s[..|s| - 1]);
      b := rest + [s[|s| - 1]];
      assert s == s[..|s| - 1] + [s[|s| - 1]];
    } else {
      b := "";
    }
  }

  /** Stripping takes the white space at both ends and nothing in between. */
  lemma StripTakes(u: Unicode, s: string) returns (a: string, b: string)
    ensures AllSpace(u, a) && AllSpace(u, b) && s == a + Strip(u, s) + b
    ensures Strip(u, s) == "" || Trimmed(u, Strip(u, s))
  {
    a := LeftStripTakes(u, s);
    b := RightStripTakes(u, LeftStrip(u, s));
    StripKeeps(u, s);
  }

  lemma {:induction false} StripsToNothing(u: Unicode, s: string)
    ensures Strip(u, s) == "" <==> AllSpace(u, s)
  {
    var a, b := StripTakes(u, s);
    hide Strip;
    if Strip(u, s) != "" {
      assert s[|a|] == Strip(u, s)[0];
    }
  }

  // ---------- the chunks, one by one ----------

  function NonBlank(u: Unicode, parts: seq<string>): nat {
    if parts == [] then 0 else (if AllSpace(u, parts[0]) then 0 else 1) + NonBlank(u, parts[1..])
  }

  lemma {:induction false} ParagraphsCount(u: Unicode, parts: seq<string>)
    ensures |Paragraphs(u, parts)| == NonBlank(u, parts)
  {
    hide Strip;
    hide AllSpace;
    if parts != [] {
      StripsToNothing(u, parts[0]);
      ParagraphsCount(u, parts[1..]);
    }
  }

  lemma {:induction false} AllBlank(u: Unicode, parts: seq<string>)
    requires u.Valid() && parts != []
    ensures NonBlank(u, parts) == 0 <==> AllSpace(u, JoinBreaks(parts))
  {
    assert AsciiSpace('\n');
    if |parts| == 1 {
      assert parts[1..] == [];
    } else {
      AllBlank(u, parts[1..]);
      JoinedSpace(u, parts[0], JoinBreaks(parts[1..]));
    }
  }

  lemma JoinedSpace(u: Unicode, a: string, b: string)
    requires '\n' in u.space
    ensures AllSpace(u, a + BREAK + b) <==> AllSpace(u, a) && AllSpace(u, b)
  {
    var s := a + BREAK + b;
    if AllSpace(u, s) {
      forall i | 0 <= i < |a| ensures a[i] in u.space { assert s[i] == a[i]; }
      forall i | 0 <= i < |b| ensures b[i] in u.space { assert s[|a| + 2 + i] == b[i]; }
    }
  }

  /** The text of a chunk, without the summary in the first. */
  function TextOf(summary: string, chunks: seq<string>, i: nat): string
    requires i < |chunks| && |chunks[0]| >= |summary| + 2
  {
    if i == 0 then chunks[0][|summary| + 2..] else chunks[i]
  }

  /**
    A short text, or one of white space only, is one chunk with the whole text behind the summary. A
    long text has one chunk for each piece between blank lines that is not blank; each holds a trimmed
    piece without a blank line, the first of them behind the summary.
   */
  lemma ChunksExactly(u: Unicode, summary: string, raw: string)
    requires u.Valid()
    ensures var chunks := BuildChunks(u, summary, raw);
            && chunks != [] && summary + BREAK <= chunks[0]
            && if |raw| <= LONG_TEXT_CHARS || AllSpace(u, raw) then chunks == [summary + BREAK + raw]
               else && |chunks| == NonBlank(u, Split(raw))
                    && forall i :: 0 <= i < |chunks| ==>
                         Trimmed(u, TextOf(summary, chunks, i)) && !HasBreak(TextOf(summary, chunks, i))
  {
    hide Split;
    hide Trimmed;
    hide HasBreak;
    hide AllSpace;
    hide Paragraphs;
    var chunks := BuildChunks(u, summary, raw);
    var paragraphs := Paragraphs(u, Split(raw));
    ParagraphsCount(u, Split(raw));
    AllBlank(u, Split(raw));
    SplitJoins(raw);
    OneChunk(summary, raw);
    if |raw| > LONG_TEXT_CHARS && paragraphs != [] {
      ParagraphsKeep(u, Split(raw));
      SplitPieces(raw);
      ParagraphsNoBreak(u, Split(raw));
      var first := summary + BREAK + paragraphs[0];
      assert first[|summary| + 2..] == paragraphs[0];
      forall i | 0 <= i < |chunks| ensures TextOf(summary, chunks, i) == paragraphs[i] {
      }
    }
  }
}
