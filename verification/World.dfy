/**
  The whole system: the worker, the monthly reports and the overrides, on one database with one
  audit log.
 */
module World {
  import opened Wrappers
  import opened Domain
  import opened Singles
  import opened Tables
  import P = Pipeline
  import PipelineRuns
  import LedgerLaws
  import PipelineSafety
  import D = Desk
  import DeskRuns
  import DeskLaws

  datatype State = State(pipe: P.State, desk: D.State)

  /** The committed tables. */
  function Committed(w: State): Db { Db(w.pipe.ledger.facts, w.desk.rows, w.desk.audit) }

  function Initial(inbox: seq<seq<string>>): State { State(P.Initial(inbox), D.INITIAL) }

  datatype Step =
    | Work(p: P.Step)
    | Edit(d: D.Step)
    | Override(caller: Caller, report: nat, labels: Labels)
    /** A search, which only leaves a record. */
    | Search(caller: Caller, query: string)

  predicate Enabled(env: P.Env, w: State, s: Step) {
    match s
    case Work(p) => !p.Override? && P.Enabled(env, w.pipe, p)
    case Edit(d) => !d.Log? && D.Enabled(w.desk, d)
    case Override(caller, report, labels) => Overridden(Committed(w), caller, report, labels).Ok?
    case Search(_, _) => true
  }

  /** What the step does to the worker's part, and to the monthly part. */
  function PipeSteps(s: Step): seq<P.Step> {
    match s
    case Work(p) => [p]
    case Edit(_) => []
    case Override(_, report, labels) => [P.Override(report, labels)]
    case Search(_, _) => []
  }

  function DeskSteps(s: Step): seq<D.Step> {
    match s
    case Work(_) => []
    case Edit(d) => [d]
    case Override(caller, report, labels) => [D.Log(OverrideAnalysis(caller.id, report, labels))]
    case Search(caller, query) => [D.Log(SearchQuery(caller.id, query))]
  }

  lemma PartsEnabled(env: P.Env, w: State, s: Step)
    requires Enabled(env, w, s)
    ensures P.Possible(env, w.pipe, PipeSteps(s)) && D.Possible(w.desk, DeskSteps(s))
  {
  }

  ghost function Next(env: P.Env, w: State, s: Step): State
    requires Enabled(env, w, s)
  {
    PartsEnabled(env, w, s);
    State(P.Run(env, w.pipe, PipeSteps(s)), D.Run(w.desk, DeskSteps(s)))
  }

  ghost predicate Possible(env: P.Env, w: State, steps: seq<Step>)
    decreases |steps|
  {
    steps == [] || (Enabled(env, w, steps[0]) && Possible(env, Next(env, w, steps[0]), steps[1..]))
  }

  ghost function Run(env: P.Env, w: State, steps: seq<Step>): State
    requires Possible(env, w, steps)
    decreases |steps|
  {
    if steps == [] then w else Run(env, Next(env, w, steps[0]), steps[1..])
  }

  lemma OneDeskStep(w: D.State, d: D.Step)
    requires D.Enabled(w, d)
    ensures D.Possible(w, [d]) && D.Run(w, [d]) == D.Next(w, d)
  {
    assert [d][1..] == [];
  }

  // ---------- steps are the use cases ----------

  function Outcome(before: Db, outcome: Result<Db, Error>): Db {
    match outcome
    case Ok(db) => db
    case Err(_) => before
  }

  lemma OverrideIsUseCase(env: P.Env, w: State, caller: Caller, report: nat, labels: Labels)
    requires Enabled(env, w, Override(caller, report, labels))
    ensures Overridden(Committed(w), caller, report, labels)
         == Ok(Committed(Next(env, w, Override(caller, report, labels))))
  {
    P.RunOne(env, w.pipe, P.Override(report, labels));
    OneDeskStep(w.desk, D.Log(OverrideAnalysis(caller.id, report, labels)));
  }

  /** What a monthly use case does to the tables. */
  function UseCase(db: Db, d: D.Step): Result<Db, Error>
    requires d.Generate? || d.Save? || d.Approve? || d.SaveAndApprove?
  {
    match d
    case Generate(id, attempt) => Generated(db, id, attempt)
    case Save(caller, id, body) => Saved(db, caller, id, body)
    case Approve(caller, id, at) => Approved(db, caller, id, at)
    case SaveAndApprove(caller, id, body, at) => SavedAndApproved(db, caller, id, body, at)
  }

  /** Monthly steps change the tables as the use cases do, and leave the reports alone. */
  lemma EditIsUseCase(env: P.Env, w: State, d: D.Step)
    requires Enabled(env, w, Edit(d)) && (d.Generate? || d.Save? || d.Approve? || d.SaveAndApprove?)
    ensures Committed(Next(env, w, Edit(d))) == Outcome(Committed(w), UseCase(Committed(w), d))
  {
    hide P.Run;
    NoPipeStep(env, w.pipe);
    OneDeskStep(w.desk, d);
    hide D.Run;
  }

  lemma NoPipeStep(env: P.Env, w: P.State)
    ensures P.Possible(env, w, []) && P.Run(env, w, []) == w
  {
  }

  // ---------- every run of the whole is a run of each part ----------

  function AllPipeSteps(steps: seq<Step>): seq<P.Step> {
    if steps == [] then [] else PipeSteps(steps[0]) + AllPipeSteps(steps[1..])
  }

  function AllDeskSteps(steps: seq<Step>): seq<D.Step> {
    if steps == [] then [] else DeskSteps(steps[0]) + AllDeskSteps(steps[1..])
  }

  lemma {:induction false} DeskConcat(w: D.State, a: seq<D.Step>, b: seq<D.Step>)
    requires D.Possible(w, a) && D.Possible(D.Run(w, a), b)
    ensures D.Possible(w, a + b) && D.Run(w, a + b) == D.Run(D.Run(w, a), b)
    decreases |a|
  {
    hide D.Enabled;
    hide D.Next;
    if a == [] {
      assert a + b == b;
    } else {
      assert (a + b)[1..] == a[1..] + b && (a + b)[0] == a[0];
      DeskConcat(D.Next(w, a[0]), a[1..], b);
    }
  }

  /** So whatever holds of every run of a part holds of every run of the whole. */
  lemma {:induction false} RunOfParts(env: P.Env, w: State, steps: seq<Step>)
    requires Possible(env, w, steps)
    ensures P.Possible(env, w.pipe, AllPipeSteps(steps))
    ensures P.Run(env, w.pipe, AllPipeSteps(steps)) == Run(env, w, steps).pipe
    ensures D.Possible(w.desk, AllDeskSteps(steps))
    ensures D.Run(w.desk, AllDeskSteps(steps)) == Run(env, w, steps).desk
    decreases |steps|
  {
    hide P.Enabled;
    hide P.Next;
    hide D.Enabled;
    hide D.Next;
    hide Enabled;
    hide PipeSteps;
    hide DeskSteps;
    if steps != [] {
      var v := Next(env, w, steps[0]);
      PartsEnabled(env, w, steps[0]);
      RunOfParts(env, v, steps[1..]);
      P.RunConcat(env, w.pipe, PipeSteps(steps[0]), AllPipeSteps(steps[1..]));
      DeskConcat(w.desk, DeskSteps(steps[0]), AllDeskSteps(steps[1..]));
    }
  }

  // ---------- overrides and the log ----------

  /** The labels of the latest override of a report in the log. */
  function LastOverride(audit: seq<Audit>, report: nat): Option<Labels> {
    if audit == [] then None
    else
      var last := audit[|audit| - 1];
      if last.OverrideAnalysis? && last.report == report then Some(last.labels)
      else LastOverride(audit[..|audit| - 1], report)
  }

  ghost predicate OverrideOk(analyses: map<nat, Analysis>, audit: seq<Audit>, id: nat) {
    match LastOverride(audit, id)
    case None => id in analyses ==> analyses[id].status != HUMAN_VERIFIED
    case Some(labels) => id in analyses && analyses[id].status == HUMAN_VERIFIED && analyses[id].labels == labels
  }

  ghost predicate OverridesOk(db: Db) {
    forall id :: OverrideOk(db.facts.analyses, db.audit, id)
  }

  lemma LastOverrideAppend(audit: seq<Audit>, e: Audit, id: nat)
    ensures LastOverride(audit + [e], id) ==
            if e.OverrideAnalysis? && e.report == id then Some(e.labels) else LastOverride(audit, id)
  {
    assert (audit + [e])[..|audit|] == audit;
  }

  ghost predicate Inv(env: P.Env, w: State) {
    PipelineSafety.Inv(env, w.pipe) && DeskLaws.Inv(w.desk) && OverridesOk(Committed(w))
  }

  lemma FromObjectIsMachine(env: P.Env, draft: Draft)
    requires LedgerLaws.FromObject(env, draft)
    ensures draft.analysis.status != HUMAN_VERIFIED
  {
  }

  lemma WorkOverrides(env: P.Env, w: State, p: P.Step)
    requires PipelineSafety.Inv(env, w.pipe) && OverridesOk(Committed(w)) && !p.Override? && P.Enabled(env, w.pipe, p)
    ensures OverridesOk(Committed(w.(pipe := P.Next(env, w.pipe, p))))
  {
    hide LedgerLaws.FromObject;
    hide PipelineSafety.HandlersOk;
    hide PipelineSafety.OwnersOk;
    hide PipelineSafety.MessagesOk;
    hide LedgerLaws.RowsOk;
    hide LedgerLaws.SentOk;
    hide LastOverride;
    hide P.DraftFor;
    var v := w.(pipe := P.Next(env, w.pipe, p));
    forall id ensures OverrideOk(v.pipe.ledger.facts.analyses, v.desk.audit, id) {
      assert OverrideOk(w.pipe.ledger.facts.analyses, w.desk.audit, id);
      if p.Commit? && w.pipe.handlers[p.h].phase.inserted {
        var key := w.pipe.handlers[p.h].phase.key;
        assert LedgerLaws.PendingRowOk(env, w.pipe.ledger, key);
        FromObjectIsMachine(env, w.pipe.ledger.pending[key].draft);
      }
    }
  }

  /** A monthly step appends approvals at most. */
  lemma EditOverrides(w: D.State, d: D.Step, id: nat)
    requires !d.Log? && D.Enabled(w, d)
    ensures LastOverride(D.Next(w, d).audit, id) == LastOverride(w.audit, id)
  {
    hide LastOverride;
    if d.Approve? || d.SaveAndApprove? {
      var v := D.Next(w, d);
      if v.audit != w.audit {
        var e := v.audit[|v.audit| - 1];
        assert v.audit == w.audit + [e] && e.ApproveMonthly?;
        LastOverrideAppend(w.audit, e, id);
      }
    }
  }

  lemma OverrideOverrides(env: P.Env, w: State, caller: Caller, report: nat, labels: Labels)
    requires OverridesOk(Committed(w)) && Overridden(Committed(w), caller, report, labels).Ok?
    ensures OverridesOk(Overridden(Committed(w), caller, report, labels).value)
  {
    hide LastOverride;
    var db, after := Committed(w), Overridden(Committed(w), caller, report, labels).value;
    forall id ensures OverrideOk(after.facts.analyses, after.audit, id) {
      assert OverrideOk(db.facts.analyses, db.audit, id);
      LastOverrideAppend(db.audit, OverrideAnalysis(caller.id, report, labels), id);
    }
  }

  lemma StepKeeps(env: P.Env, w: State, s: Step)
    requires Inv(env, w) && Enabled(env, w, s)
    ensures Inv(env, Next(env, w, s))
  {
    hide PipelineSafety.Inv;
    hide DeskLaws.Inv;
    hide LastOverride;
    var v := Next(env, w, s);
    PartsEnabled(env, w, s);
    PipelineRuns.RunKeeps(env, w.pipe, PipeSteps(s));
    DeskRuns.RunKeeps(w.desk, DeskSteps(s));
    match s {
      case Work(p) =>
        P.RunOne(env, w.pipe, p);
        WorkOverrides(env, w, p);
      case Edit(d) =>
        OneDeskStep(w.desk, d);
        forall id ensures OverrideOk(v.pipe.ledger.facts.analyses, v.desk.audit, id) {
          assert OverrideOk(w.pipe.ledger.facts.analyses, w.desk.audit, id);
          EditOverrides(w.desk, d, id);
        }
      case Override(caller, report, labels) =>
        OverrideIsUseCase(env, w, caller, report, labels);
        OverrideOverrides(env, w, caller, report, labels);
      case Search(caller, query) =>
        OneDeskStep(w.desk, D.Log(SearchQuery(caller.id, query)));
        forall id ensures OverrideOk(v.pipe.ledger.facts.analyses, v.desk.audit, id) {
          assert OverrideOk(w.pipe.ledger.facts.analyses, w.desk.audit, id);
          LastOverrideAppend(w.desk.audit, SearchQuery(caller.id, query), id);
        }
    }
  }

  lemma {:induction false} RunKeeps(env: P.Env, w: State, steps: seq<Step>)
    requires Inv(env, w) && Possible(env, w, steps)
    ensures Inv(env, Run(env, w, steps))
    decreases |steps|
  {
    hide Inv;
    hide Enabled;
    hide Next;
    if steps != [] {
      StepKeeps(env, w, steps[0]);
      RunKeeps(env, Next(env, w, steps[0]), steps[1..]);
    }
  }

  lemma RunOk(env: P.Env, inbox: seq<seq<string>>, steps: seq<Step>)
    requires Possible(env, Initial(inbox), steps)
    ensures Inv(env, Run(env, Initial(inbox), steps))
  {
    hide Run;
    hide Possible;
    PipelineRuns.InitialOk(env, inbox);
    DeskLaws.InitialOk();
    hide PipelineSafety.Inv;
    hide DeskLaws.Inv;
    forall id: nat ensures OverrideOk(Committed(Initial(inbox)).facts.analyses, Committed(Initial(inbox)).audit, id) {
    }
    RunKeeps(env, Initial(inbox), steps);
  }

  // ---------- results about the whole ----------

  /** An analysis is human-verified exactly if the log holds an override of it, and has the latest labels. */
  lemma OverridesAgree(env: P.Env, inbox: seq<seq<string>>, steps: seq<Step>, id: nat)
    requires Possible(env, Initial(inbox), steps)
    ensures var db := Committed(Run(env, Initial(inbox), steps));
            var last := LastOverride(db.audit, id);
            && (last.Some? <==> id in db.facts.analyses && db.facts.analyses[id].status == HUMAN_VERIFIED)
            && (last.Some? ==> db.facts.analyses[id].labels == last.value)
  {
    hide Run;
    hide Possible;
    hide LastOverride;
    hide PipelineSafety.Inv;
    hide DeskLaws.Inv;
    RunOk(env, inbox, steps);
    var db := Committed(Run(env, Initial(inbox), steps));
    assert OverrideOk(db.facts.analyses, db.audit, id);
  }

  /** What the classifier said about a committed report. */
  function Judged(w: State, id: nat): Analysis
    requires id in w.pipe.ledger.facts.reports
    requires w.pipe.ledger.facts.reports[id].sourceKey in w.pipe.ledger.history
  {
    w.pipe.ledger.history[w.pipe.ledger.facts.reports[id].sourceKey].analysis
  }

  lemma JudgedFacts(env: P.Env, inbox: seq<seq<string>>, steps: seq<Step>, id: nat)
    requires Possible(env, Initial(inbox), steps)
    requires id in Committed(Run(env, Initial(inbox), steps)).facts.reports
    ensures var w := Run(env, Initial(inbox), steps);
            var facts := w.pipe.ledger.facts;
            && facts.reports[id].sourceKey in w.pipe.ledger.history
            && 0.0 <= Judged(w, id).confidence <= 1.0
            && Judged(w, id).status == P.StatusFor(env, Judged(w, id).confidence)
            && id in facts.analyses
            && facts.analyses[id].confidence == Single(Judged(w, id).confidence)
            && (facts.analyses[id].status != HUMAN_VERIFIED ==> facts.analyses[id].status == Judged(w, id).status)
  {
    hide Run;
    hide Possible;
    hide Single;
    hide OverridesOk;
    RunOk(env, inbox, steps);
    var w := Run(env, Initial(inbox), steps);
    hide DeskLaws.Inv;
    hide PipelineSafety.HandlersOk;
    hide PipelineSafety.OwnersOk;
    hide PipelineSafety.MessagesOk;
    hide LedgerLaws.SentOk;
    hide LedgerLaws.PendingOk;
    hide LedgerLaws.FromObject;
    var l := w.pipe.ledger;
    assert LedgerLaws.RowOk(env, l, id);
    FromObjectStatus(env, Draft(l.facts.reports[id], Judged(w, id), l.facts.chunks[id]));
  }

  lemma FromObjectStatus(env: P.Env, draft: Draft)
    requires LedgerLaws.FromObject(env, draft)
    ensures 0.0 <= draft.analysis.confidence <= 1.0
    ensures draft.analysis.status == P.StatusFor(env, draft.analysis.confidence)
  {
  }

  /**
    The review queue holds exactly the reports that the classifier put below the threshold and that
    nobody has overridden; the others are what the classifier said, or what the latest override says.
   */
  lemma QueueIsUnreviewed(env: P.Env, inbox: seq<seq<string>>, steps: seq<Step>, id: nat)
    requires Possible(env, Initial(inbox), steps)
    requires id in Committed(Run(env, Initial(inbox), steps)).facts.reports
    ensures var w := Run(env, Initial(inbox), steps);
            var db := Committed(w);
            && db.facts.reports[id].sourceKey in w.pipe.ledger.history && id in db.facts.analyses
            && (db.facts.analyses[id].status == NEEDS_REVIEW <==>
                  Judged(w, id).confidence < env.threshold && LastOverride(db.audit, id).None?)
  {
    hide Run;
    hide Possible;
    hide LastOverride;
    hide Single;
    JudgedFacts(env, inbox, steps, id);
    OverridesAgree(env, inbox, steps, id);
  }

  /**
    The stored number tells which of the untouched reports are in the queue exactly for those the
    classifier did not put between the threshold and its edge in single precision.
   */
  lemma StoredNumberAgrees(env: P.Env, inbox: seq<seq<string>>, steps: seq<Step>, id: nat)
    requires Possible(env, Initial(inbox), steps)
    requires id in Committed(Run(env, Initial(inbox), steps)).facts.reports
    requires LastOverride(Committed(Run(env, Initial(inbox), steps)).audit, id).None?
    ensures var w := Run(env, Initial(inbox), steps);
            var a := Committed(w).facts.analyses;
            && Committed(w).facts.reports[id].sourceKey in w.pipe.ledger.history && id in a
            && ((a[id].status == NEEDS_REVIEW <==> a[id].confidence < env.threshold)
                <==> !Between(env.threshold, Judged(w, id).confidence))
  {
    hide Run;
    hide Possible;
    hide LastOverride;
    hide Single;
    hide Between;
    JudgedFacts(env, inbox, steps, id);
    QueueIsUnreviewed(env, inbox, steps, id);
    VerdictChanges(env.threshold, Judged(Run(env, Initial(inbox), steps), id).confidence);
  }
}
