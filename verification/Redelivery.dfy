/** A notification is not undone by a rollback: where "no double notification" fails (app/services/ingest.py). */
module Redelivery {
  import opened Domain
  import opened Tables
  import opened Pipeline
  import opened Wrappers
  import opened Chunking
  import Ingest
  import LedgerLaws
  import PipelineRuns
  import PipelineSafety

  lemma SecondDelivery(env: Env, w: State, o: string)
    requires w.messages == [Message([o], IN_FLIGHT, 1)]
    ensures Possible(env, w, [Expire(0)] + [Receive(0)])
    ensures Run(env, w, [Expire(0)] + [Receive(0)]) ==
            w.(messages := [Message([o], IN_FLIGHT, 2)], handlers := w.handlers + [Handler(0, 0, Fetching)])
  {
    hide Run;
    hide Possible;
    var x := Next(env, w, Expire(0));
    RunOne(env, x, Receive(0));
    RunCons(env, w, Expire(0), [Receive(0)]);
  }

  /** The attempts of one key: both notify, and only the second commits. */
  function Attempt(c: Classification, commits: bool): Ingest.Answers {
    Ingest.Answers([], Ok(c), true, true, commits)
  }

  /** An urgent report that is not there yet. */
  lemma NewAlert(env: Env, w: State, h: nat, o: string, c: Classification, commits: bool)
    requires o in env.objects && c.labels.urgency == HIGH && w.ledger.facts.reports == map[]
    ensures Ingest.Alerts(env, w.ledger.facts, o, Attempt(c, commits))
  {
    hide BuildChunks;
  }

  /** The attempt that notifies and then fails. */
  lemma FirstAttempt(env: Env, w: State, o: string, c: Classification)
    requires o in env.objects && c.labels.urgency == HIGH && InRange(c)
    requires w == State(Initial([[o]]).ledger, [Message([o], IN_FLIGHT, 1)], [Handler(0, 0, Fetching)])
    ensures Ingest.Undisturbed(env, w, 0)
    ensures var steps := Ingest.StepsOf(env, w, 0, Attempt(c, false));
            && Possible(env, w, steps)
            && var v := Run(env, w, steps);
            && v.messages == w.messages && v.handlers == [Handler(0, 0, Stopped)]
            && v.ledger.facts == w.ledger.facts && v.ledger.pending == map[]
            && v.ledger.sent == multiset{env.objects[o].sourceKey}
  {
    hide Run;
    hide Possible;
    hide Ingest.StepsOf;
    Ingest.IngestIsSteps(env, w, 0, Attempt(c, false));
    NewAlert(env, w, 0, o, c, false);
    hide Ingest.Alerts;
  }

  /** The attempt that notifies and commits. */
  lemma SecondAttempt(env: Env, w: State, o: string, c: Classification)
    requires o in env.objects && c.labels.urgency == HIGH && InRange(c)
    requires w.messages == [Message([o], IN_FLIGHT, 2)]
    requires w.handlers == [Handler(0, 0, Stopped), Handler(0, 0, Fetching)]
    requires w.ledger.pending == map[] && w.ledger.facts.reports == map[]
    ensures Ingest.Undisturbed(env, w, 1)
    ensures var steps := Ingest.StepsOf(env, w, 1, Attempt(c, true));
            && Possible(env, w, steps)
            && var l := Run(env, w, steps).ledger;
            && HasKey(l.facts, env.objects[o].sourceKey)
            && l.sent == w.ledger.sent + multiset{env.objects[o].sourceKey}
  {
    hide Run;
    hide Possible;
    hide Ingest.StepsOf;
    hide BuildChunks;
    Ingest.IngestIsSteps(env, w, 1, Attempt(c, true));
    NewAlert(env, w, 1, o, c, true);
    var l := Run(env, w, Ingest.StepsOf(env, w, 1, Attempt(c, true))).ledger;
    assert l.lastId in l.facts.reports;
  }

  /**
    Every urgent object can be notified twice: the first attempt notifies and fails before its
    commit, the message is redelivered, and the second attempt notifies again and commits.
   */
  lemma NotifiedTwice(env: Env, o: string, c: Classification) returns (steps: seq<Step>)
    requires o in env.objects && c.labels.urgency == HIGH && InRange(c)
    ensures Possible(env, Initial([[o]]), steps)
    ensures var l := Run(env, Initial([[o]]), steps).ledger;
            HasKey(l.facts, env.objects[o].sourceKey) && l.sent[env.objects[o].sourceKey] == 2
  {
    hide Run;
    hide Possible;
    hide Ingest.StepsOf;
    hide Ingest.Undisturbed;
    hide Next;
    hide Enabled;
    Ingest.FirstDelivery(env, o);
    var w1 := Next(env, Initial([[o]]), Receive(0));
    FirstAttempt(env, w1, o, c);
    var a := Ingest.StepsOf(env, w1, 0, Attempt(c, false));
    var w2 := Run(env, w1, a);
    SecondDelivery(env, w2, o);
    var again := [Expire(0)] + [Receive(0)];
    var w3 := Run(env, w2, again);
    SecondAttempt(env, w3, o, c);
    var b := Ingest.StepsOf(env, w3, 1, Attempt(c, true));
    RunConcat(env, w2, again, b);
    RunConcat(env, w1, a, again + b);
    RunCons(env, Initial([[o]]), Receive(0), a + (again + b));
    steps := [Receive(0)] + (a + (again + b));
  }

  // ---------- when a report is notified once ----------

  /** The step fails a handler that has notified the key and not committed it. */
  predicate FailsAfterNotifying(w: State, s: Step, k: string) {
    s.Fail? && s.h < |w.handlers| &&
    match w.handlers[s.h].phase
    case Notifying(key) => key == k && s.delivered
    case Committing(key, inserted) => key == k && inserted && k in w.ledger.pending && w.ledger.pending[k].notified
    case _ => false
  }

  /** Steps of the run that do. */
  function FailuresAfterNotifying(env: Env, w: State, steps: seq<Step>, k: string): nat
    requires Possible(env, w, steps)
    decreases |steps|
  {
    if steps == [] then 0
    else (if FailsAfterNotifying(w, steps[0], k) then 1 else 0)
         + FailuresAfterNotifying(env, Next(env, w, steps[0]), steps[1..], k)
  }

  lemma StepWastes(env: Env, w: State, s: Step, k: string)
    requires PipelineSafety.Inv(env, w) && Enabled(env, w, s)
    ensures Next(env, w, s).ledger.wasted[k]
         == w.ledger.wasted[k] + if FailsAfterNotifying(w, s, k) then 1 else 0
  {
    hide DraftFor;
    hide HasKey;
    hide Inserted;
    hide LedgerLaws.LedgerOk;
    hide PipelineSafety.OwnersOk;
    hide PipelineSafety.MessagesOk;
    if s.Fail? {
      assert PipelineSafety.HandlerOk(env, w, s.h);
    }
    hide PipelineSafety.HandlersOk;
    hide PipelineSafety.AllStored;
    hide LedgerLaws.FromObject;
  }

  lemma {:induction false} WastedByFailures(env: Env, w: State, steps: seq<Step>, k: string)
    requires PipelineSafety.Inv(env, w) && Possible(env, w, steps)
    ensures Run(env, w, steps).ledger.wasted[k]
         == w.ledger.wasted[k] + FailuresAfterNotifying(env, w, steps, k)
    decreases |steps|
  {
    hide PipelineSafety.Inv;
    hide Enabled;
    hide Next;
    hide FailsAfterNotifying;
    if steps != [] {
      PipelineRuns.StepKeeps(env, w, steps[0]);
      StepWastes(env, w, steps[0], k);
      WastedByFailures(env, Next(env, w, steps[0]), steps[1..], k);
    }
  }

  /**
    A committed urgent report was notified once for itself and once for every step of the run that
    failed a handler between notifying and committing its key; so once exactly if there is none.
   */
  lemma NotifiedOnceExactly(env: Env, inbox: seq<seq<string>>, steps: seq<Step>, id: nat)
    requires Possible(env, Initial(inbox), steps)
    requires var f := Run(env, Initial(inbox), steps).ledger.facts;
             && id in f.reports && id in f.analyses
             && f.analyses[id].labels.urgency == HIGH && f.analyses[id].status != HUMAN_VERIFIED
    ensures var l := Run(env, Initial(inbox), steps).ledger;
            var key := l.facts.reports[id].sourceKey;
            && l.sent[key] == 1 + FailuresAfterNotifying(env, Initial(inbox), steps, key)
            && (l.sent[key] == 1 <==> FailuresAfterNotifying(env, Initial(inbox), steps, key) == 0)
  {
    hide Run;
    hide Possible;
    PipelineRuns.NotificationsExact(env, inbox, steps, id);
    PipelineRuns.InitialOk(env, inbox);
    hide PipelineSafety.Inv;
    var key := Run(env, Initial(inbox), steps).ledger.facts.reports[id].sourceKey;
    WastedByFailures(env, Initial(inbox), steps, key);
  }
}
