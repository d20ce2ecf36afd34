/** Recognising a masked text among the known originals (app/infra/llm/summaries.py). */
module Summaries {
  import opened Wrappers
  import opened Text
  import opened Docs
  import opened Masking
  import opened MaskingLaws

  // ---------- keys ----------

  /** `text.split()`, with the word read so far. */
  function Words(u: Unicode, text: string, word: string): seq<string> {
    var done := if word == "" then [] else [word];
    if text == "" then done
    else if text[0] in u.space then done + Words(u, text[1..], "")
    else Words(u, text[1..], word + [text[0]])
  }

  /** `"".join(text.split())` */
  function Key(u: Unicode, text: string): string { Concat(Words(u, text, "")) }

  lemma {:induction false} WordsConcat(u: Unicode, text: string, word: string)
    ensures Concat(Words(u, text, word)) == word + NoSpace(u, text)
    decreases |text|
  {
    var done := if word == "" then [] else [word];
    if text == "" {
      assert Concat(done) == word by { assert done == [] || done[1..] == []; }
    } else if text[0] in u.space {
      var rest := Words(u, text[1..], "");
      WordsConcat(u, text[1..], "");
      assert done == [] ==> done + rest == rest;
      assert done != [] ==> (done + rest)[1..] == rest;
    } else {
      WordsConcat(u, text[1..], word + [text[0]]);
    }
  }

  /** A key is the text without its white space. */
  lemma KeyIsNoSpace(u: Unicode, text: string)
    ensures Key(u, text) == NoSpace(u, text)
  {
    WordsConcat(u, text, "");
  }

  lemma {:induction false} NoSpaceNone(u: Unicode, s: string)
    requires forall i :: 0 <= i < |s| ==> s[i] !in u.space
    ensures NoSpace(u, s) == s
  {
    if s != "" {
      NoSpaceNone(u, s[1..]);
    }
  }

  lemma {:induction false} NoSpaceChars(u: Unicode, s: string, c: char)
    requires c !in s
    ensures c !in NoSpace(u, s)
  {
    if s != "" {
      NoSpaceChars(u, s[1..], c);
    }
  }

  // ---------- fragments ----------

  /** `s.split("[")` with the chunk read so far. */
  function Chunks(s: string, chunk: string): seq<string> {
    if s == "" then [chunk]
    else if s[0] == '[' then [chunk] + Chunks(s[1..], "")
    else Chunks(s[1..], chunk + [s[0]])
  }

  /** What follows the first `]` of a chunk, or the whole chunk. */
  function Tail(chunk: string): string {
    if ']' !in chunk then chunk
    else if chunk[0] == ']' then chunk[1..]
    else Tail(chunk[1..])
  }

  /** The tail begins behind the first `]`. */
  lemma {:induction false} TailIsBehind(chunk: string) returns (head: string)
    ensures ']' !in chunk ==> Tail(chunk) == chunk
    ensures ']' in chunk ==> ']' !in head && chunk == head + "]" + Tail(chunk)
  {
    head := "";
    if ']' in chunk && chunk[0] != ']' {
      var rest := TailIsBehind(chunk[1..]);
      head := [chunk[0]] + rest;
      assert chunk == [chunk[0]] + chunk[1..];
    }
  }

  /** `"[".join(chunks)` */
  function JoinBrackets(chunks: seq<string>): string
    requires chunks != []
  {
    if |chunks| == 1 then chunks[0] else chunks[0] + "[" + JoinBrackets(chunks[1..])
  }

  /** The text is cut at every `[` and nowhere else. */
  lemma {:induction false} ChunksJoin(s: string, chunk: string)
    requires '[' !in chunk
    ensures Chunks(s, chunk) != [] && JoinBrackets(Chunks(s, chunk)) == chunk + s
    ensures forall c :: c in Chunks(s, chunk) ==> '[' !in c
    decreases |s|
  {
    if s != "" {
      if s[0] == '[' {
        ChunksJoin(s[1..], "");
        assert ([chunk] + Chunks(s[1..], ""))[1..] == Chunks(s[1..], "");
        assert s == "[" + s[1..];
      } else {
        ChunksJoin(s[1..], chunk + [s[0]]);
        assert s == [s[0]] + s[1..];
      }
    }
  }

  /** The non-empty tails, in order. */
  function Fragments(chunks: seq<string>): seq<string> {
    if chunks == [] then []
    else (if Tail(chunks[0]) == "" then [] else [Tail(chunks[0])]) + Fragments(chunks[1..])
  }

  function Total(frags: seq<string>): nat {
    if frags == [] then 0 else |frags[0]| + Total(frags[1..])
  }

  /** `s.find(w, from)` */
  function Find(s: string, w: string, from: nat): (r: Option<nat>)
    requires from <= |s|
    ensures r.Some? ==> from <= r.value && r.value + |w| <= |s| && w <= s[r.value..]
    ensures r.Some? ==> forall i :: from <= i < r.value ==> !(w <= s[i..])
    ensures r.None? ==> forall i :: from <= i <= |s| ==> !(w <= s[i..])
    decreases |s| - from
  {
    if w <= s[from..] then Some(from)
    else if from == |s| then None
    else Find(s, w, from + 1)
  }

  predicate OccursAt(w: string, s: string, i: nat) {
    i + |w| <= |s| && w <= s[i..]
  }

  /** The fragments occur in `s` from `pos` on, in this order and without overlap. */
  ghost predicate Embeds(frags: seq<string>, s: string, pos: nat) {
    frags == [] || exists i: nat :: pos <= i && OccursAt(frags[0], s, i) && Embeds(frags[1..], s, i + |frags[0]|)
  }

  lemma EmbedsEarlier(frags: seq<string>, s: string, pos: nat, earlier: nat)
    requires earlier <= pos && Embeds(frags, s, pos)
    ensures Embeds(frags, s, earlier)
  {
    if frags != [] {
      var i: nat :| pos <= i && OccursAt(frags[0], s, i) && Embeds(frags[1..], s, i + |frags[0]|);
      assert earlier <= i;
    }
  }

  /** Taking the first occurrence is never a mistake, and without one there is no embedding. */
  lemma GreedyStep(frags: seq<string>, s: string, pos: nat)
    requires frags != [] && pos <= |s|
    ensures var found := Find(s, frags[0], pos);
            Embeds(frags, s, pos) <==>
            found.Some? && Embeds(frags[1..], s, found.value + |frags[0]|)
  {
    var found := Find(s, frags[0], pos);
    if Embeds(frags, s, pos) {
      var i: nat :| pos <= i && OccursAt(frags[0], s, i) && Embeds(frags[1..], s, i + |frags[0]|);
      assert found.Some? && found.value <= i;
      EmbedsEarlier(frags[1..], s, i + |frags[0]|, found.value + |frags[0]|);
    }
    if found.Some? && Embeds(frags[1..], s, found.value + |frags[0]|) {
      assert OccursAt(frags[0], s, found.value);
    }
  }

  lemma FragmentsStep(chunks: seq<string>, i: nat)
    requires i < |chunks|
    ensures var tail, rest := Tail(chunks[i]), Fragments(chunks[i + 1..]);
            Fragments(chunks[i..]) == if tail == "" then rest else [tail] + rest
  {
    assert chunks[i..][1..] == chunks[i + 1..];
    assert [] + Fragments(chunks[i + 1..]) == Fragments(chunks[i + 1..]);
  }

  lemma TotalStep(tail: string, rest: seq<string>)
    ensures ([tail] + rest)[1..] == rest && Total([tail] + rest) == |tail| + Total(rest)
  {
    assert ([tail] + rest)[1..] == rest;
  }

  /** When the matcher accepts. */
  ghost predicate Recognised(masked: string, original: string) {
    var frags := Fragments(Chunks(masked, ""));
    '[' in masked && Embeds(frags, original, 0) && Total(frags) >= |original| / 2
  }

  method MatchesMasked(masked: string, original: string) returns (accepted: bool)
    ensures accepted <==> Recognised(masked, original)
  {
    if '[' !in masked {
      return false;
    }
    var pos: nat, matched: nat := 0, 0;
    var chunks := Chunks(masked, "");
    ghost var frags := Fragments(chunks);
    assert chunks[0..] == chunks;
    hide Fragments;
    hide Total;
    hide Embeds;
    hide Chunks;
    hide Tail;
    hide Find;
    for i := 0 to |chunks|
      invariant pos <= |original|
      invariant Embeds(Fragments(chunks[i..]), original, pos) <==> Embeds(frags, original, 0)
      invariant matched + Total(Fragments(chunks[i..])) == Total(frags)
    {
      var tail := Tail(chunks[i]);
      ghost var rest := Fragments(chunks[i + 1..]);
      FragmentsStep(chunks, i);
      if tail == "" {
        continue;
      }
      TotalStep(tail, rest);
      GreedyStep([tail] + rest, original, pos);
      var found := Find(original, tail, pos);
      if found.None? {
        return false;
      }
      pos := found.value + |tail|;
      matched := matched + |tail|;
    }
    assert chunks[|chunks|..] == [];
    NoFragments(original, pos);
    return matched >= |original| / 2;
  }

  lemma NoFragments(s: string, pos: nat)
    ensures Fragments([]) == [] && Total([]) == 0 && Embeds([], s, pos)
  {
  }

  /** A known original's key and its summary, in dictionary order. */
  method Lookup(u: Unicode, table: seq<(string, string)>, maskedText: string) returns (summary: Option<string>)
    ensures var key := Key(u, maskedText);
            match summary
            case Some(s) =>
              exists k :: 0 <= k < |table| && table[k].1 == s &&
                if exists i :: 0 <= i < |table| && table[i].0 == key
                then table[k].0 == key
                else Recognised(key, table[k].0) && forall i :: 0 <= i < k ==> !Recognised(key, table[i].0)
            case None =>
              forall i :: 0 <= i < |table| ==> table[i].0 != key && !Recognised(key, table[i].0)
  {
    var key := Key(u, maskedText);
    for k := 0 to |table|
      invariant forall i :: 0 <= i < k ==> table[i].0 != key
    {
      if table[k].0 == key {
        return Some(table[k].1);
      }
    }
    for k := 0 to |table|
      invariant forall i :: 0 <= i < k ==> !Recognised(key, table[i].0)
    {
      var accepted := MatchesMasked(key, table[k].0);
      if accepted {
        return Some(table[k].1);
      }
    }
    return None;
  }

  // ---------- masked texts are recognised ----------

  lemma {:induction false} ChunksOf(a: string, rest: string, chunk: string)
    requires '[' !in a
    ensures Chunks(a + rest, chunk) == Chunks(rest, chunk + a)
    decreases |a|
  {
    if a == "" {
      assert a + rest == rest && chunk + a == chunk;
    } else {
      assert (a + rest)[1..] == a[1..] + rest;
      ChunksOf(a[1..], rest, chunk + [a[0]]);
      assert chunk + [a[0]] + a[1..] == chunk + a;
    }
  }

  lemma {:induction false} TailOf(tag: string, lit: string)
    requires ']' !in tag
    ensures Tail(tag + [']'] + lit) == lit
  {
    if tag == "" {
      assert tag + [']'] + lit == [']'] + lit;
    } else {
      assert (tag + [']'] + lit)[1..] == tag[1..] + [']'] + lit;
      TailOf(tag[1..], lit);
    }
    assert (tag + [']'] + lit)[|tag|] == ']';
  }

  /** The document with the white space of its literals and originals removed. */
  function KeyDoc(u: Unicode, d: Doc): Doc {
    match d
    case End(l) => End(NoSpace(u, l))
    case Cut(l, h, rest) => Cut(NoSpace(u, l), Hole(h.tag, NoSpace(u, h.original)), KeyDoc(u, rest))
  }

  predicate PlainTags(u: Unicode, d: Doc) {
    d.Cut? ==>
      && '[' !in d.hole.tag && ']' !in d.hole.tag
      && (forall i :: 0 <= i < |d.hole.tag| ==> d.hole.tag[i] !in u.space)
      && PlainTags(u, d.rest)
  }

  lemma {:induction false} KeyDocViews(u: Unicode, d: Doc)
    requires u.Valid() && PlainTags(u, d)
    ensures NoSpace(u, Render(d)) == Render(KeyDoc(u, d))
    ensures NoSpace(u, Original(d)) == Original(KeyDoc(u, d))
  {
    if d.Cut? {
      KeyDocViews(u, d.rest);
      var token := Token(d.hole.tag);
      assert '[' !in u.space && ']' !in u.space;
      NoSpaceNone(u, token);
      NoSpaceConcat(u, d.lit + token, Render(d.rest));
      NoSpaceConcat(u, d.lit, token);
      NoSpaceConcat(u, d.lit + d.hole.original, Original(d.rest));
      NoSpaceConcat(u, d.lit, d.hole.original);
    }
  }

  /** The non-empty literals. */
  function Lits(d: Doc): seq<string> {
    (if d.lit == "" then [] else [d.lit]) + (if d.Cut? then Lits(d.rest) else [])
  }

  lemma TailBehind(prefix: string, lit: string)
    requires prefix == "" || (']' !in prefix[..|prefix| - 1] && prefix[|prefix| - 1] == ']')
    requires ']' !in lit
    ensures Tail(prefix + lit) == lit
  {
    if prefix == "" {
      assert prefix + lit == lit;
    } else {
      TailOf(prefix[..|prefix| - 1], lit);
      assert prefix + lit == prefix[..|prefix| - 1] + [']'] + lit;
    }
  }

  /** Behind a chunk that ends in `d`'s first literal, the fragments are `d`'s literals. */
  lemma {:induction false} FragmentsAreLits(d: Doc, u: Unicode, prefix: string)
    requires PlainTags(u, d) && LitsFree(d, '[') && LitsFree(d, ']')
    requires prefix == "" || (']' !in prefix[..|prefix| - 1] && prefix[|prefix| - 1] == ']')
    ensures Fragments(Chunks(Render(d), prefix)) == Lits(d)
  {
    var chunk := prefix + d.lit;
    TailBehind(prefix, d.lit);
    match d
    case End(l) =>
      assert Render(d) == l + "";
      ChunksOf(l, "", prefix);
      assert [chunk][1..] == [];
    case Cut(l, h, rest) =>
      ChunksAtHole(l, h.tag, Render(rest), prefix);
      FragmentsAreLits(rest, u, h.tag + [']']);
      var more := Chunks(Render(rest), h.tag + [']']);
      assert ([chunk] + more)[1..] == more;
  }

  /** A placeholder ends a chunk and starts the next one. */
  lemma ChunksAtHole(l: string, tag: string, rest: string, prefix: string)
    requires '[' !in l && '[' !in tag
    ensures Chunks(l + Token(tag) + rest, prefix) == [prefix + l] + Chunks(rest, tag + [']'])
  {
    var behind := tag + [']'] + rest;
    Brackets(l, tag, rest);
    assert l + ['['] + behind == l + (['['] + behind);
    ChunksOf(l, ['['] + behind, prefix);
    assert (['['] + behind)[1..] == behind;
    ChunksOf(tag + [']'], rest, "");
    assert "" + (tag + [']']) == tag + [']'];
  }

  lemma LitOccurs(d: Doc, before: string)
    ensures OccursAt(d.lit, before + Original(d), |before|)
    ensures d.Cut? ==> before + Original(d) == (before + d.lit + d.hole.original) + Original(d.rest)
  {
    assert (before + Original(d))[|before|..] == Original(d);
    if d.Cut? {
      var x, y := d.hole.original, Original(d.rest);
      assert d.lit + x + y == d.lit + (x + y);
      assert before + (d.lit + x + y) == (before + d.lit + x) + y;
    }
  }

  /** The literals of a document embed in what it stands for. */
  lemma {:induction false} LitsEmbed(d: Doc, before: string)
    ensures Embeds(Lits(d), before + Original(d), |before|)
  {
    LitOccurs(d, before);
    hide OccursAt;
    var s := before + Original(d);
    var rest := if d.Cut? then Lits(d.rest) else [];
    if d.Cut? {
      var skipped := before + d.lit + d.hole.original;
      LitsEmbed(d.rest, skipped);
      hide Original;
      EmbedsEarlier(rest, s, |skipped|, |before| + |d.lit|);
    } else {
      NoFragments(s, |before| + |d.lit|);
    }
    hide Embeds;
    if d.lit == "" {
      assert [] + rest == rest;
    } else {
      EmbedsFirst(d.lit, rest, s, |before|);
    }
  }

  lemma EmbedsFirst(w: string, rest: seq<string>, s: string, pos: nat)
    requires OccursAt(w, s, pos) && Embeds(rest, s, pos + |w|)
    ensures Embeds([w] + rest, s, pos)
  {
    TotalStep(w, rest);
  }

  lemma {:induction false} LitsFreeKey(u: Unicode, d: Doc, c: char)
    requires LitsFree(d, c)
    ensures LitsFree(KeyDoc(u, d), c)
  {
    NoSpaceChars(u, d.lit, c);
    if d.Cut? {
      LitsFreeKey(u, d.rest, c);
    }
  }

  lemma {:induction false} PlainTagsKey(u: Unicode, d: Doc)
    requires PlainTags(u, d)
    ensures PlainTags(u, KeyDoc(u, d))
  {
    if d.Cut? {
      PlainTagsKey(u, d.rest);
    }
  }

  /**
    A masked document over bracket-free literals is recognised as its own original exactly when
    something was masked and at least half of the original's characters were left.
   */
  lemma DocRecognised(u: Unicode, d: Doc)
    requires u.Valid() && PlainTags(u, d) && LitsFree(d, '[') && LitsFree(d, ']')
    ensures Recognised(Key(u, Render(d)), Key(u, Original(d)))
            <==> d.Cut? && Total(Lits(KeyDoc(u, d))) >= |Key(u, Original(d))| / 2
  {
    var k := KeyDoc(u, d);
    KeyIsNoSpace(u, Render(d));
    KeyIsNoSpace(u, Original(d));
    KeyDocViews(u, d);
    LitsFreeKey(u, d, '[');
    LitsFreeKey(u, d, ']');
    PlainTagsKey(u, d);
    FragmentsAreLits(k, u, "");
    LitsEmbed(k, "");
    assert "" + Original(k) == Original(k);
    HasBracket(k);
  }

  lemma HasBracket(d: Doc)
    requires LitsFree(d, '[')
    ensures '[' in Render(d) <==> d.Cut?
  {
    if d.Cut? {
      assert Render(d)[|d.lit|] == '[';
    }
  }

  predicate PlainTag(u: Unicode, tag: string) {
    '[' !in tag && ']' !in tag && forall i :: 0 <= i < |tag| ==> tag[i] !in u.space
  }

  lemma {:induction false} PlainTagsIfAll(u: Unicode, d: Doc)
    requires forall h :: h in Holes(d) ==> PlainTag(u, h.tag)
    ensures PlainTags(u, d)
  {
    if d.Cut? {
      assert d.hole in Holes(d);
      PlainTagsIfAll(u, d.rest);
    }
  }

  lemma InnerIsPlain(u: Unicode, kind: Kind, n: nat)
    requires u.Valid()
    ensures PlainTag(u, Inner(kind, n))
  {
    InnerChars(kind, n);
    var d := Dec(n);
    assert forall i :: 0 <= i < |d| ==> AsciiDigit(d[i]);
    assert forall c :: AsciiWord(c) ==> c !in u.space;
    assert forall i :: 0 <= i < |Name(kind)| ==> AsciiWord(Name(kind)[i]);
  }

  /**
    What the masker makes of a bracket-free text is recognised as that text exactly when it masked
    something and left at least half of the characters that are not white space.
   */
  lemma MaskingRecognised(u: Unicode, tokens: seq<Morpheme>)
    requires u.Valid() && '[' !in SourceText(tokens) && ']' !in SourceText(tokens)
    requires Count(u, tokens, PERSON) < LIMIT && Count(u, tokens, EMAIL) < LIMIT
    ensures Recognised(Key(u, MaskedText(u, tokens)), Key(u, SourceText(tokens)))
            <==> Final(u, tokens).Cut?
                 && Total(Lits(KeyDoc(u, Final(u, tokens)))) >= |Key(u, SourceText(tokens))| / 2
  {
    hide Scan;
    hide Weave;
    hide Inner;
    hide Recognised;
    var d := Final(u, tokens);
    FinalFacts(u, tokens);
    FinalLitsFree(u, tokens, '[');
    FinalLitsFree(u, tokens, ']');
    var all := AllHoles(u, tokens);
    forall h | h in Holes(d) ensures PlainTag(u, h.tag) {
      var j :| 0 <= j < |all| && all[j] == h;
      HoleTag(u, tokens, j);
      InnerIsPlain(u, Coordinates(u, tokens, j).0, Coordinates(u, tokens, j).1);
    }
    PlainTagsIfAll(u, d);
    DocRecognised(u, d);
  }
}
