/** Personal data in the prompts of the running system. */
module PromptRuns {
  import opened Wrappers
  import opened Text
  import opened Regex
  import opened Chunking
  import opened Domain
  import opened Search
  import opened Prompts
  import P = Pipeline
  import PipelineSafety
  import LedgerLaws
  import Ingest
  import Masking
  import Privacy
  import Tables
  import World

  // ---------- what the chunks of a run hold ----------

  /** The chunks of a report are made of its summary and its raw text, unmasked. */
  ghost predicate ChunksStored(u: Unicode, facts: Facts) {
    forall id :: id in facts.reports && id in facts.analyses && id in facts.chunks ==>
      facts.chunks[id] == BuildChunks(u, facts.analyses[id].summary, facts.reports[id].rawText)
  }

  lemma FromObjectChunks(env: P.Env, draft: Draft)
    requires LedgerLaws.FromObject(env, draft)
    ensures draft.chunks == BuildChunks(env.u, draft.analysis.summary, draft.report.rawText)
    ensures (forall o :: o in env.objects ==> env.objects[o].reportedAt.Valid()) ==> draft.report.reportedAt.Valid()
  {
    hide BuildChunks;
  }

  lemma RunsStoreChunks(env: P.Env, inbox: seq<seq<string>>, steps: seq<World.Step>)
    requires World.Possible(env, World.Initial(inbox), steps)
    ensures ChunksStored(env.u, World.Committed(World.Run(env, World.Initial(inbox), steps)).facts)
    ensures (forall o :: o in env.objects ==> env.objects[o].reportedAt.Valid()) ==>
              var reports := World.Committed(World.Run(env, World.Initial(inbox), steps)).facts.reports;
              forall id :: id in reports ==> reports[id].reportedAt.Valid()
  {
    hide World.Run;
    hide World.Possible;
    hide LedgerLaws.FromObject;
    hide World.OverridesOk;
    hide BuildChunks;
    World.RunOk(env, inbox, steps);
    var l := World.Run(env, World.Initial(inbox), steps).pipe.ledger;
    hide PipelineSafety.HandlersOk;
    hide PipelineSafety.OwnersOk;
    hide PipelineSafety.MessagesOk;
    forall id | id in l.facts.reports
      ensures id in l.facts.analyses && id in l.facts.chunks
      ensures l.facts.chunks[id] == BuildChunks(env.u, l.facts.analyses[id].summary, l.facts.reports[id].rawText)
      ensures (forall o :: o in env.objects ==> env.objects[o].reportedAt.Valid()) ==>
                l.facts.reports[id].reportedAt.Valid()
    {
      assert LedgerLaws.RowOk(env, l, id);
      var committed := l.history[l.facts.reports[id].sourceKey].analysis;
      FromObjectChunks(env, Draft(l.facts.reports[id], committed, l.facts.chunks[id]));
    }
  }

  // ---------- exactly when every prompt is clean ----------

  /** Nothing that a search with this question can put before the model contains a match. */
  ghost predicate AllPromptsClean(re: Pattern, facts: Facts, permitted: set<nat>, f: Filters, query: string) {
    forall hits: seq<Hit> :: hits != [] && AreHits(facts, permitted, f, hits) ==> NoMatch(re, AnswerPrompt(query, hits))
  }

  ghost predicate SourceClean(re: Pattern, facts: Facts, id: nat)
    requires id in facts.reports && id in facts.analyses
  {
    NoMatch(re, facts.analyses[id].summary) && NoMatch(re, facts.reports[id].rawText)
  }

  function HitFor(facts: Facts, id: nat, i: nat): Hit
    requires id in facts.reports && id in facts.analyses && id in facts.chunks && i < |facts.chunks[id]|
  {
    var r := facts.reports[id];
    Hit(id, r.property, facts.chunks[id][i], facts.analyses[id].summary, r.reportedAt)
  }

  lemma OneHit(facts: Facts, permitted: set<nat>, f: Filters, id: nat, i: nat)
    requires Eligible(facts, permitted, f, id) && i < |facts.chunks[id]|
    ensures AreHits(facts, permitted, f, [HitFor(facts, id, i)])
  {
  }

  lemma HitOfCleanSource(u: Unicode, re: Pattern, facts: Facts, permitted: set<nat>, f: Filters, h: Hit)
    requires SpacesAvoid(u, re) && ChunksStored(u, facts) && IsHit(facts, permitted, f, h)
    requires SourceClean(re, facts, h.reportId)
    ensures NoMatch(re, h.content)
  {
    hide NoMatch;
    hide BuildChunks;
    hide SpacesAvoid;
    var id := h.reportId;
    ChunksExact(u, re, facts.analyses[id].summary, facts.reports[id].rawText);
    var i :| 0 <= i < |facts.chunks[id]| && facts.chunks[id][i] == h.content;
  }

  lemma ChunksExist(u: Unicode, facts: Facts, id: nat)
    requires ChunksStored(u, facts) && id in facts.reports && id in facts.analyses && id in facts.chunks
    ensures facts.chunks[id] != []
  {
    hide Split;
    hide Paragraphs;
  }

  lemma SourceOfCleanChunks(u: Unicode, re: Pattern, facts: Facts, id: nat)
    requires SpacesAvoid(u, re) && ChunksStored(u, facts)
    requires id in facts.reports && id in facts.analyses && id in facts.chunks
    requires forall i :: 0 <= i < |facts.chunks[id]| ==> NoMatch(re, facts.chunks[id][i])
    ensures SourceClean(re, facts, id)
  {
    hide NoMatch;
    hide BuildChunks;
    hide SpacesAvoid;
    ChunksExact(u, re, facts.analyses[id].summary, facts.reports[id].rawText);
  }

  /** What clean prompts say about a report that can be found, and what they say about the question. */
  lemma CleanPromptsSay(u: Unicode, re: Pattern, facts: Facts, permitted: set<nat>, f: Filters, query: string, id: nat)
    requires Framed(re) && SpacesAvoid(u, re) && ChunksStored(u, facts)
    requires AllPromptsClean(re, facts, permitted, f, query) && Eligible(facts, permitted, f, id)
    ensures NoMatch(re, query) && SourceClean(re, facts, id) && NoMatch(re, Dec(id))
  {
    hide NoMatch;
    hide Framed;
    hide Eligible;
    hide AnswerPrompt;
    hide Dec;
    hide IsoDate;
    hide ChunksStored;
    assert id in facts.reports && id in facts.analyses && id in facts.chunks by { EligibleHas(facts, permitted, f, id); }
    ChunksExist(u, facts, id);
    forall i | 0 <= i < |facts.chunks[id]|
      ensures NoMatch(re, facts.chunks[id][i]) && NoMatch(re, query) && NoMatch(re, Dec(id))
    {
      var hits := [HitFor(facts, id, i)];
      OneHit(facts, permitted, f, id, i);
      PromptExact(re, query, hits);
      assert HitClean(re, hits[0]);
    }
    assert NoMatch(re, facts.chunks[id][0]) && NoMatch(re, query);
    SourceOfCleanChunks(u, re, facts, id);
  }

  lemma EligibleHas(facts: Facts, permitted: set<nat>, f: Filters, id: nat)
    requires Eligible(facts, permitted, f, id)
    ensures id in facts.reports && id in facts.analyses && id in facts.chunks
  {
  }

  /** The question is clean, and so is what every report that can be found was made from. */
  ghost predicate SourcesClean(re: Pattern, facts: Facts, permitted: set<nat>, f: Filters, query: string) {
    NoMatch(re, query) && forall id :: Eligible(facts, permitted, f, id) ==> SourceClean(re, facts, id)
  }

  lemma EmailPromptsExact(u: Unicode, facts: Facts, permitted: set<nat>, f: Filters, query: string)
    requires u.Valid() && u.SpacesApart() && ChunksStored(u, facts)
    ensures AllPromptsClean(Masking.Email(u), facts, permitted, f, query) <==>
              || (forall id :: !Eligible(facts, permitted, f, id))
              || SourcesClean(Masking.Email(u), facts, permitted, f, query)
  {
    var re := Masking.Email(u);
    EmailFramed(u);
    EmailSpaces(u);
    hide Masking.Email;
    hide NoMatch;
    hide Framed;
    hide SpacesAvoid;
    hide SourceClean;
    hide AnswerPrompt;
    hide Eligible;
    hide ChunksStored;
    if AllPromptsClean(re, facts, permitted, f, query) {
      forall id | Eligible(facts, permitted, f, id) ensures NoMatch(re, query) && SourceClean(re, facts, id) {
        CleanPromptsSay(u, re, facts, permitted, f, query, id);
      }
    }
    if SourcesClean(re, facts, permitted, f, query) {
      forall hits: seq<Hit> | hits != [] && AreHits(facts, permitted, f, hits)
        ensures NoMatch(re, AnswerPrompt(query, hits))
      {
        PromptEmail(u, query, hits);
        forall i | 0 <= i < |hits| ensures NoMatch(re, hits[i].content) {
          assert hits[i] in hits;
          HitOfCleanSource(u, re, facts, permitted, f, hits[i]);
        }
      }
    }
    forall hits: seq<Hit> | hits != [] && AreHits(facts, permitted, f, hits)
      ensures exists id :: Eligible(facts, permitted, f, id)
    {
      assert hits[0] in hits && Eligible(facts, permitted, f, hits[0].reportId);
    }
  }

  /** For phone numbers the ids of the reports have a say too. */
  lemma PhonePromptsExact(u: Unicode, facts: Facts, permitted: set<nat>, f: Filters, query: string)
    requires u.Valid() && u.SpacesApart() && ChunksStored(u, facts)
    requires forall id :: id in facts.reports ==> facts.reports[id].reportedAt.Valid()
    ensures AllPromptsClean(Masking.Phone(u), facts, permitted, f, query) <==>
              || (forall id :: !Eligible(facts, permitted, f, id))
              || (&& SourcesClean(Masking.Phone(u), facts, permitted, f, query)
                  && forall id :: Eligible(facts, permitted, f, id) ==> NoMatch(Masking.Phone(u), Dec(id)))
  {
    var re := Masking.Phone(u);
    PhoneFramed(u);
    PhoneSpaces(u);
    hide Masking.Phone;
    hide NoMatch;
    hide Framed;
    hide SpacesAvoid;
    hide SourceClean;
    hide AnswerPrompt;
    hide ChunksStored;
    hide Dec;
    if AllPromptsClean(re, facts, permitted, f, query) {
      forall id | Eligible(facts, permitted, f, id)
        ensures NoMatch(re, query) && SourceClean(re, facts, id) && NoMatch(re, Dec(id))
      {
        CleanPromptsSay(u, re, facts, permitted, f, query, id);
      }
    }
    if SourcesClean(re, facts, permitted, f, query)
       && forall id :: Eligible(facts, permitted, f, id) ==> NoMatch(re, Dec(id))
    {
      forall hits: seq<Hit> | hits != [] && AreHits(facts, permitted, f, hits)
        ensures NoMatch(re, AnswerPrompt(query, hits))
      {
        forall i | 0 <= i < |hits|
          ensures hits[i].reportedAt.Valid() && NoMatch(re, hits[i].content) && NoMatch(re, Dec(hits[i].reportId))
        {
          assert hits[i] in hits;
          HitOfCleanSource(u, re, facts, permitted, f, hits[i]);
        }
        PromptPhone(u, query, hits);
      }
    }
    forall hits: seq<Hit> | hits != [] && AreHits(facts, permitted, f, hits)
      ensures exists id :: Eligible(facts, permitted, f, id)
    {
      assert hits[0] in hits && Eligible(facts, permitted, f, hits[0].reportId);
    }
  }

  /**
    In every run: whatever the similarity search picks, no prompt carries an address exactly if
    nothing can be found, or neither the question nor the summary or raw text of any report that can
    be found contains one. Masking has no part in it.
   */
  lemma PromptsHaveNoEmail(env: P.Env, inbox: seq<seq<string>>, steps: seq<World.Step>,
                           permitted: set<nat>, f: Filters, query: string)
    requires World.Possible(env, World.Initial(inbox), steps) && env.u.Valid() && env.u.SpacesApart()
    ensures var facts := World.Committed(World.Run(env, World.Initial(inbox), steps)).facts;
            AllPromptsClean(Masking.Email(env.u), facts, permitted, f, query) <==>
              || (forall id :: !Eligible(facts, permitted, f, id))
              || SourcesClean(Masking.Email(env.u), facts, permitted, f, query)
  {
    hide World.Run;
    hide World.Possible;
    hide AllPromptsClean;
    hide SourcesClean;
    hide Eligible;
    hide ChunksStored;
    hide Masking.Email;
    RunsStoreChunks(env, inbox, steps);
    EmailPromptsExact(env.u, World.Committed(World.Run(env, World.Initial(inbox), steps)).facts, permitted, f, query);
  }

  /** The same for phone numbers, where a report id of a million or more can look like one. */
  lemma PromptsHaveNoPhone(env: P.Env, inbox: seq<seq<string>>, steps: seq<World.Step>,
                           permitted: set<nat>, f: Filters, query: string)
    requires World.Possible(env, World.Initial(inbox), steps) && env.u.Valid() && env.u.SpacesApart()
    requires forall o :: o in env.objects ==> env.objects[o].reportedAt.Valid()
    ensures var facts := World.Committed(World.Run(env, World.Initial(inbox), steps)).facts;
            AllPromptsClean(Masking.Phone(env.u), facts, permitted, f, query) <==>
              || (forall id :: !Eligible(facts, permitted, f, id))
              || (&& SourcesClean(Masking.Phone(env.u), facts, permitted, f, query)
                  && forall id :: Eligible(facts, permitted, f, id) ==> NoMatch(Masking.Phone(env.u), Dec(id)))
  {
    hide World.Run;
    hide World.Possible;
    hide AllPromptsClean;
    hide SourcesClean;
    hide Eligible;
    hide ChunksStored;
    hide Masking.Phone;
    hide Dec;
    RunsStoreChunks(env, inbox, steps);
    PhonePromptsExact(env.u, World.Committed(World.Run(env, World.Initial(inbox), steps)).facts, permitted, f, query);
  }

  // ---------- raw text does reach the model ----------

  const ANY := Filters(None, None, None, None)

  lemma InsertedIsEligible(draft: Draft, facts: Facts)
    requires facts == Tables.Inserted(Facts(map[], map[], map[]), 1, draft)
    ensures Eligible(facts, {draft.report.property}, ANY, 1)
    ensures facts.chunks[1] == draft.chunks && facts.analyses[1].summary == draft.analysis.summary
    ensures facts.reports[1] == draft.report && facts.reports.Keys == {1}
  {
    hide Tables.AsStored;
    assert Tables.AsStored(draft.analysis).summary == draft.analysis.summary by { StoredSummary(draft.analysis); }
  }

  lemma StoredSummary(a: Analysis)
    ensures Tables.AsStored(a).summary == a.summary
  {
  }

  /**
    For every object whose raw text contains a match, however it is classified, there is a run after
    which some search over its property puts the match before the model, whatever the question.
   */
  lemma RawTextReachesModel(env: P.Env, o: string, c: P.Classification, re: Pattern, query: string)
    returns (steps: seq<P.Step>)
    requires o in env.objects && P.InRange(c) && Framed(re) && SpacesAvoid(env.u, re)
    requires !NoMatch(re, env.objects[o].rawText)
    ensures P.Possible(env, P.Initial([[o]]), steps)
    ensures !AllPromptsClean(re, P.Run(env, P.Initial([[o]]), steps).ledger.facts,
                             {env.objects[o].property}, ANY, query)
  {
    hide P.Run;
    hide P.Possible;
    hide NoMatch;
    hide Framed;
    hide SpacesAvoid;
    hide BuildChunks;
    hide AllPromptsClean;
    steps := Ingest.CanBeCommitted(env, o, c);
    var draft := P.DraftFor(env, env.objects[o], c);
    var facts := P.Run(env, P.Initial([[o]]), steps).ledger.facts;
    InsertedIsEligible(draft, facts);
    hide Eligible;
    hide Tables.Inserted;
    assert ChunksStored(env.u, facts);
    if AllPromptsClean(re, facts, {env.objects[o].property}, ANY, query) {
      CleanPromptsSay(env.u, re, facts, {env.objects[o].property}, ANY, query, 1);
    }
  }

  /** An environment with one object whose raw text is an address. */
  function Example(u: Unicode): P.Env {
    P.Env(u, map["in/1.json" := P.Payload("1", 1, Instant(2025, 1, 1, 0), "a@b.cc")], 0.85)
  }

  lemma ExampleHasEmail(u: Unicode)
    requires u.Valid()
    ensures !NoMatch(Masking.Email(u), "a@b.cc")
  {
    assert AsciiWord('a') && AsciiWord('b') && AsciiWord('c');
    assert Privacy.EmailAt(u, "a@b.cc", 1, 3);
    Privacy.NoMatchIsNoEmail(u, "a@b.cc");
  }

  /** So the raw text `a@b.cc` comes before the model, although the classified text hides it. */
  lemma AddressReachesModel(u: Unicode, c: P.Classification, query: string) returns (steps: seq<P.Step>)
    requires u.Valid() && u.SpacesApart() && P.InRange(c)
    ensures P.Possible(Example(u), P.Initial([["in/1.json"]]), steps)
    ensures !AllPromptsClean(Masking.Email(u), P.Run(Example(u), P.Initial([["in/1.json"]]), steps).ledger.facts,
                             {1}, ANY, query)
  {
    hide P.Run;
    hide P.Possible;
    hide NoMatch;
    hide AllPromptsClean;
    ExampleHasEmail(u);
    EmailFramed(u);
    EmailSpaces(u);
    hide Framed;
    hide SpacesAvoid;
    hide Masking.Email;
    steps := RawTextReachesModel(Example(u), "in/1.json", c, Masking.Email(u), query);
  }
}
