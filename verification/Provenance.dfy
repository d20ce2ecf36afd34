/** Where committed reports come from: one object, and what the model said about it in the run. */
module Provenance {
  import opened Domain
  import opened Singles
  import opened Chunking
  import opened Pipeline
  import Tables
  import LedgerLaws
  import PipelineSafety
  import PipelineRuns

  /** The draft holds the object's report, what the model said, and the chunks of both. */
  predicate Carries(env: Env, draft: Draft, o: string, c: Classification) {
    && o in env.objects
    && draft.report.property == env.objects[o].property && draft.report.sourceKey == env.objects[o].sourceKey
    && draft.report.reportedAt == env.objects[o].reportedAt && draft.report.rawText == env.objects[o].rawText
    && draft.analysis.labels == c.labels && draft.analysis.summary == c.summary
    && draft.analysis.confidence == c.confidence
    && draft.analysis.status == (if c.confidence < env.threshold then NEEDS_REVIEW else AUTO_CLASSIFIED)
    && draft.chunks == BuildChunks(env.u, c.summary, env.objects[o].rawText)
  }

  /** Some step so far fetched the object with this answer. */
  ghost predicate Told(env: Env, past: seq<Step>, draft: Draft) {
    exists i, o :: 0 <= i < |past| && past[i].Fetch? && Carries(env, draft, o, past[i].c)
  }

  lemma DraftCarries(env: Env, o: string, c: Classification)
    requires o in env.objects
    ensures Carries(env, DraftFor(env, env.objects[o], c), o, c)
  {
    hide BuildChunks;
  }

  lemma StillTold(env: Env, past: seq<Step>, s: Step, draft: Draft)
    requires Told(env, past, draft)
    ensures Told(env, past + [s], draft)
  {
    hide Carries;
    var i, o :| 0 <= i < |past| && past[i].Fetch? && Carries(env, draft, o, past[i].c);
    assert (past + [s])[i] == past[i];
  }

  lemma NowTold(env: Env, past: seq<Step>, s: Step, o: string)
    requires s.Fetch? && o in env.objects
    ensures Told(env, past + [s], DraftFor(env, env.objects[o], s.c))
  {
    hide Carries;
    hide DraftFor;
    DraftCarries(env, o, s.c);
    assert (past + [s])[|past|] == s;
  }

  // ---------- the invariant ----------

  ghost predicate HandlerTold(env: Env, past: seq<Step>, handler: Handler) {
    handler.phase.Inserting? ==> Told(env, past, handler.phase.draft)
  }

  ghost predicate HandlersTold(env: Env, past: seq<Step>, w: State) {
    forall h :: 0 <= h < |w.handlers| ==> HandlerTold(env, past, w.handlers[h])
  }

  ghost predicate PendingTold(env: Env, past: seq<Step>, l: Ledger) {
    forall k :: k in l.pending ==> Told(env, past, l.pending[k].draft)
  }

  /** What was committed under the report's key. */
  ghost predicate RowTold(env: Env, past: seq<Step>, l: Ledger, id: nat) {
    && id in l.facts.reports && id in l.facts.chunks && l.facts.reports[id].sourceKey in l.history
    && Told(env, past, Draft(l.facts.reports[id], l.history[l.facts.reports[id].sourceKey].analysis, l.facts.chunks[id]))
  }

  ghost predicate RowsTold(env: Env, past: seq<Step>, l: Ledger) {
    forall id :: id in l.facts.reports ==> RowTold(env, past, l, id)
  }

  ghost predicate AllTold(env: Env, past: seq<Step>, w: State) {
    HandlersTold(env, past, w) && PendingTold(env, past, w.ledger) && RowsTold(env, past, w.ledger)
  }

  lemma LaterTold(env: Env, past: seq<Step>, s: Step, w: State)
    requires AllTold(env, past, w)
    ensures AllTold(env, past + [s], w)
  {
    hide Told;
    var more := past + [s];
    forall h | 0 <= h < |w.handlers| ensures HandlerTold(env, more, w.handlers[h]) {
      assert HandlerTold(env, past, w.handlers[h]);
      if w.handlers[h].phase.Inserting? {
        StillTold(env, past, s, w.handlers[h].phase.draft);
      }
    }
    forall k | k in w.ledger.pending ensures Told(env, more, w.ledger.pending[k].draft) {
      StillTold(env, past, s, w.ledger.pending[k].draft);
    }
    forall id | id in w.ledger.facts.reports ensures RowTold(env, more, w.ledger, id) {
      assert RowTold(env, past, w.ledger, id);
      StillTold(env, past, s, Draft(w.ledger.facts.reports[id],
        w.ledger.history[w.ledger.facts.reports[id].sourceKey].analysis, w.ledger.facts.chunks[id]));
    }
  }

  // ---------- every step keeps it ----------

  lemma PublishTold(env: Env, past: seq<Step>, l: Ledger, key: string)
    requires LedgerLaws.HistoryOk(l) && LedgerLaws.PendingOk(env, l) && key in l.pending
    requires PendingTold(env, past, l) && RowsTold(env, past, l)
    ensures PendingTold(env, past, Publish(l, key)) && RowsTold(env, past, Publish(l, key))
  {
    hide Told;
    hide LedgerLaws.FromObject;
    hide Tables.AsStored;
    var v, p := Publish(l, key), l.pending[key];
    assert LedgerLaws.PendingRowOk(env, l, key);
    assert Draft(p.draft.report, p.draft.analysis, p.draft.chunks) == p.draft;
    forall id | id in v.facts.reports ensures RowTold(env, past, v, id) {
      assert id != p.id ==> RowTold(env, past, l, id);
    }
  }

  lemma RowsSame(env: Env, past: seq<Step>, l: Ledger, v: Ledger)
    requires RowsTold(env, past, l)
    requires v.facts.reports == l.facts.reports && v.facts.chunks == l.facts.chunks && v.history == l.history
    ensures RowsTold(env, past, v)
  {
    hide Told;
    forall id | id in v.facts.reports ensures RowTold(env, past, v, id) {
      assert RowTold(env, past, l, id);
    }
  }

  lemma FetchTold(env: Env, past: seq<Step>, w: State, s: Step)
    requires AllTold(env, past, w) && Enabled(env, w, s) && s.Fetch?
    ensures AllTold(env, past + [s], Next(env, w, s))
  {
    hide Told;
    hide DraftFor;
    LaterTold(env, past, s, w);
    NowTold(env, past, s, Key(w, s.h));
    var v := Next(env, w, s);
    forall h | 0 <= h < |v.handlers| ensures HandlerTold(env, past + [s], v.handlers[h]) {
      assert HandlerTold(env, past + [s], w.handlers[h]);
    }
  }

  lemma InsertTold(env: Env, past: seq<Step>, w: State, h: nat)
    requires AllTold(env, past, w) && Enabled(env, w, Step.Insert(h))
    ensures AllTold(env, past, InsertRow(w, h))
  {
    hide Told;
    hide Tables.HasKey;
    hide IsHigh;
    var v := InsertRow(w, h);
    RowsSame(env, past, w.ledger, v.ledger);
    assert HandlerTold(env, past, w.handlers[h]);
    forall g | 0 <= g < |v.handlers| ensures HandlerTold(env, past, v.handlers[g]) {
      assert HandlerTold(env, past, w.handlers[g]);
    }
  }

  lemma CommitTold(env: Env, past: seq<Step>, w: State, h: nat, acknowledged: bool)
    requires PipelineSafety.Inv(env, w) && AllTold(env, past, w) && Enabled(env, w, Step.Commit(h, acknowledged))
    ensures AllTold(env, past, CommitKey(w, h, acknowledged))
  {
    hide Told;
    hide Publish;
    hide PipelineSafety.HandlersOk;
    hide PipelineSafety.OwnersOk;
    hide PipelineSafety.MessagesOk;
    hide LedgerLaws.RowsOk;
    hide LedgerLaws.SentOk;
    hide LedgerLaws.PendingOk;
    hide LedgerLaws.HistoryOk;
    hide PendingTold;
    hide RowsTold;
    if w.handlers[h].phase.inserted {
      PublishTold(env, past, w.ledger, w.handlers[h].phase.key);
    }
    var v := CommitKey(w, h, acknowledged);
    forall g | 0 <= g < |v.handlers| ensures HandlerTold(env, past, v.handlers[g]) {
      assert HandlerTold(env, past, w.handlers[g]);
    }
  }

  /** Steps that bring no draft and commit none. */
  lemma OtherTold(env: Env, past: seq<Step>, w: State, s: Step)
    requires AllTold(env, past, w) && Enabled(env, w, s) && !s.Fetch? && !s.Insert? && !s.Commit?
    ensures AllTold(env, past, Next(env, w, s))
  {
    OtherLedger(env, past, w, s);
    OtherHandlers(env, past, w, s);
    hide Next;
    hide Enabled;
    hide HandlersTold;
    hide PendingTold;
    hide RowsTold;
  }

  /** The ledger has the same rows, and no draft pending that it had not before. */
  predicate Keeps(l: Ledger, v: Ledger) {
    && v.facts.reports == l.facts.reports && v.facts.chunks == l.facts.chunks && v.history == l.history
    && forall k :: k in v.pending ==> k in l.pending && v.pending[k].draft == l.pending[k].draft
  }

  lemma OtherKeeps(env: Env, w: State, s: Step)
    requires Enabled(env, w, s) && !s.Fetch? && !s.Insert? && !s.Commit?
    ensures Keeps(w.ledger, Next(env, w, s).ledger)
  {
    hide DraftFor;
    hide Publish;
    hide Open;
    hide Tables.HasKey;
    hide Tables.Relabelled;
  }

  lemma OtherLedger(env: Env, past: seq<Step>, w: State, s: Step)
    requires PendingTold(env, past, w.ledger) && RowsTold(env, past, w.ledger)
    requires Enabled(env, w, s) && !s.Fetch? && !s.Insert? && !s.Commit?
    ensures PendingTold(env, past, Next(env, w, s).ledger) && RowsTold(env, past, Next(env, w, s).ledger)
  {
    hide Told;
    hide RowsTold;
    hide Next;
    hide Enabled;
    OtherKeeps(env, w, s);
    RowsSame(env, past, w.ledger, Next(env, w, s).ledger);
  }

  lemma OtherHandlers(env: Env, past: seq<Step>, w: State, s: Step)
    requires HandlersTold(env, past, w)
    requires Enabled(env, w, s) && !s.Fetch? && !s.Insert? && !s.Commit?
    ensures HandlersTold(env, past, Next(env, w, s))
  {
    hide Told;
    hide Drop;
    hide Mark;
    hide Relabel;
    hide DraftFor;
    hide Tables.Inserted;
    hide Tables.HasKey;
    var v := Next(env, w, s);
    forall g | 0 <= g < |v.handlers| ensures HandlerTold(env, past, v.handlers[g]) {
      assert g < |w.handlers| ==> HandlerTold(env, past, w.handlers[g]);
    }
  }

  lemma StepTold(env: Env, past: seq<Step>, w: State, s: Step)
    requires PipelineSafety.Inv(env, w) && AllTold(env, past, w) && Enabled(env, w, s)
    ensures AllTold(env, past + [s], Next(env, w, s))
  {
    hide PipelineSafety.Inv;
    hide AllTold;
    hide Enabled;
    LaterTold(env, past, s, w);
    match s
    case Fetch(_, _) => FetchTold(env, past, w, s);
    case Insert(h) => InsertTold(env, past + [s], w, h);
    case Commit(h, acknowledged) => CommitTold(env, past + [s], w, h, acknowledged);
    case _ => OtherTold(env, past + [s], w, s);
  }

  lemma {:induction false} RunTold(env: Env, past: seq<Step>, w: State, steps: seq<Step>)
    requires PipelineSafety.Inv(env, w) && AllTold(env, past, w) && Possible(env, w, steps)
    ensures AllTold(env, past + steps, Run(env, w, steps))
    decreases |steps|
  {
    hide PipelineSafety.Inv;
    hide AllTold;
    hide Enabled;
    hide Next;
    if steps == [] {
      assert past + steps == past;
    } else {
      StepTold(env, past, w, steps[0]);
      PipelineRuns.StepKeeps(env, w, steps[0]);
      RunTold(env, past + [steps[0]], Next(env, w, steps[0]), steps[1..]);
      assert past + [steps[0]] + steps[1..] == past + steps;
    }
  }

  // ---------- the result ----------

  /** The committed rows hold the object's report and the model's answer, up to an override of the labels. */
  ghost predicate Holds(env: Env, facts: Facts, id: nat, o: string, c: Classification)
    requires id in facts.reports && id in facts.analyses && id in facts.chunks && o in env.objects
  {
    var report, a := facts.reports[id], facts.analyses[id];
    && report.property == env.objects[o].property && report.sourceKey == env.objects[o].sourceKey
    && report.reportedAt == env.objects[o].reportedAt && report.rawText == env.objects[o].rawText
    && a.summary == c.summary && a.confidence == Single(c.confidence)
    && facts.chunks[id] == BuildChunks(env.u, c.summary, report.rawText)
    && (a.status != HUMAN_VERIFIED ==>
          && a.labels == c.labels
          && a.status == if c.confidence < env.threshold then NEEDS_REVIEW else AUTO_CLASSIFIED)
  }

  /** In every run: each committed report is one object's, with what the model said in one step of the run. */
  lemma ReportsComeFromAnswers(env: Env, inbox: seq<seq<string>>, steps: seq<Step>, id: nat)
    returns (i: nat, o: string)
    requires Possible(env, Initial(inbox), steps)
    requires id in Run(env, Initial(inbox), steps).ledger.facts.reports
    ensures i < |steps| && steps[i].Fetch? && o in env.objects
    ensures var facts := Run(env, Initial(inbox), steps).ledger.facts;
            && id in facts.analyses && id in facts.chunks
            && Holds(env, facts, id, o, steps[i].c)
  {
    hide Run;
    hide Possible;
    hide AllTold;
    hide Holds;
    hide PipelineSafety.Inv;
    hide RowTold;
    hide LedgerLaws.RowOk;
    PipelineRuns.InitialOk(env, inbox);
    NothingTold(env, inbox);
    PipelineRuns.RunOk(env, inbox, steps);
    RunTold(env, [], Initial(inbox), steps);
    assert [] + steps == steps;
    RowIsTold(env, steps, Run(env, Initial(inbox), steps), id);
    i, o := RowHolds(env, steps, Run(env, Initial(inbox), steps).ledger, id);
  }

  lemma NothingTold(env: Env, inbox: seq<seq<string>>)
    ensures AllTold(env, [], Initial(inbox))
  {
  }

  lemma RowIsTold(env: Env, past: seq<Step>, w: State, id: nat)
    requires PipelineSafety.Inv(env, w) && AllTold(env, past, w) && id in w.ledger.facts.reports
    ensures RowTold(env, past, w.ledger, id) && LedgerLaws.RowOk(env, w.ledger, id)
  {
    hide LedgerLaws.RowOk;
    hide RowTold;
  }

  lemma RowHolds(env: Env, past: seq<Step>, l: Ledger, id: nat) returns (i: nat, o: string)
    requires RowTold(env, past, l, id) && LedgerLaws.RowOk(env, l, id)
    ensures i < |past| && past[i].Fetch? && o in env.objects
    ensures id in l.facts.reports && id in l.facts.analyses && id in l.facts.chunks
    ensures Holds(env, l.facts, id, o, past[i].c)
  {
    hide LedgerLaws.FromObject;
    hide BuildChunks;
    hide Single;
    var draft := Draft(l.facts.reports[id], l.history[l.facts.reports[id].sourceKey].analysis, l.facts.chunks[id]);
    i, o :| 0 <= i < |past| && past[i].Fetch? && Carries(env, draft, o, past[i].c);
  }
}
