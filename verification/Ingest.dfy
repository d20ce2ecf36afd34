/**
  One report's ingest and one message's keys, as the worker executes them (app/services/ingest.py,
  app/worker/main.py).
 */
module Ingest {
  import opened Wrappers
  import opened Domain
  import opened Tables
  import opened Store
  import opened Chunking
  import opened Normalizer
  import opened Pipeline
  import Masking
  import UseCases

  datatype ModelError = RETRYABLE | STRUCTURED

  /** What the outside world answers during one ingest. */
  datatype Answers = Answers(
    /** The analyser's split of the raw text. */
    tokens: seq<Masking.Morpheme>,
    model: Result<Classification, ModelError>,
    embedded: bool,
    /** The notifier does not raise, and the database accepts the commit. */
    notified: bool,
    commits: bool)

  datatype Outcome = Outcome(report: Option<nat>, status: AnalysisStatus, duplicate: bool, notified: bool)

  /** Does this ingest get as far as the insert? */
  predicate Reaches(env: Env, key: string, a: Answers) {
    key in env.objects && a.model.Ok? && a.embedded
  }

  function DraftOf(env: Env, key: string, a: Answers): Draft
    requires Reaches(env, key, a)
  {
    DraftFor(env, env.objects[key], a.model.value)
  }

  class IngestService {
    const env: Env
    const session: Session
    const corrections: seq<Correction>
    const normalizer: TextNormalizer
    /** Texts given to the model for classification, and reports notified. */
    var asked: seq<string>
    var notifications: seq<nat>
    var ingestTotal: nat
    var modelErrors: nat
    var structuredFailures: nat

    ghost predicate Valid() {
      normalizer.ordered == ByLength(corrections)
    }

    constructor (env: Env, session: Session, corrections: seq<Correction>)
      ensures Valid() && this.env == env && this.session == session && this.corrections == corrections
      ensures asked == [] && notifications == [] && ingestTotal == modelErrors == structuredFailures == 0
    {
      this.env, this.session, this.corrections := env, session, corrections;
      normalizer := new TextNormalizer(corrections);
      asked, notifications := [], [];
      ingestTotal, modelErrors, structuredFailures := 0, 0, 0;
    }

    /** The text for the model: masked, then normalised. */
    method Prepare(tokens: seq<Masking.Morpheme>) returns (text: string)
      requires Valid()
      ensures text == Normalized(corrections, Masking.MaskedText(env.u, tokens))
    {
      var masker := new Masking.PiiMasker();
      var masked := masker.MaskSync(env.u, tokens);
      text := normalizer.Normalize(masked);
    }

    /** Mask, normalise, classify, chunk, embed. */
    method Classify(message: Payload, a: Answers) returns (r: Result<Draft, Error>)
      requires Valid()
      modifies this
      ensures asked == old(asked) + [Normalized(corrections, Masking.MaskedText(env.u, a.tokens))]
      ensures ingestTotal == old(ingestTotal) && notifications == old(notifications)
      ensures modelErrors == old(modelErrors) + if a.model == Err(RETRYABLE) then 1 else 0
      ensures structuredFailures == old(structuredFailures) + if a.model == Err(STRUCTURED) then 1 else 0
      ensures r == if a.model.Ok? && a.embedded then Ok(DraftFor(env, message, a.model.value)) else Err(Unavailable)
    {
      hide Normalized;
      hide Masking.MaskedText;
      hide BuildChunks;
      var text := Prepare(a.tokens);
      asked := asked + [text];
      if a.model.Err? {
        if a.model.error == RETRYABLE {
          modelErrors := modelErrors + 1;
        } else {
          structuredFailures := structuredFailures + 1;
        }
        return Err(Unavailable);
      }
      var result := a.model.value;
      var status := if result.confidence < env.threshold then NEEDS_REVIEW else AUTO_CLASSIFIED;
      var chunks := BuildChunks(env.u, result.summary, message.rawText);
      if !a.embedded {
        return Err(Unavailable);
      }
      var report := Report(message.property, message.sourceKey, message.reportedAt, message.rawText);
      var analysis := Analysis(result.labels, result.summary, result.confidence, status);
      return Ok(Draft(report, analysis, chunks));
    }

    /** Insert unless the source key is there; notify if new and urgent. */
    method Persist(draft: Draft, reachable: bool) returns (r: Result<Outcome, Error>)
      modifies this, session, session.database`lastReport
      ensures asked == old(asked) && ingestTotal == old(ingestTotal)
      ensures modelErrors == old(modelErrors) && structuredFailures == old(structuredFailures)
      ensures var id := session.database.lastReport;
              && id == old(session.database.lastReport) + 1
              && if HasKey(old(session.working.facts), draft.report.sourceKey) then
                   && r == Ok(Outcome(None, draft.analysis.status, true, false))
                   && session.working == old(session.working) && notifications == old(notifications)
                 else
                   && session.working == old(session.working).(facts := Inserted(old(session.working.facts), id, draft))
                   && if IsHigh(draft) && !reachable then r.Err? && notifications == old(notifications)
                      else && r == Ok(Outcome(Some(id), draft.analysis.status, false, IsHigh(draft)))
                           && notifications == old(notifications) + if IsHigh(draft) then [id] else []
    {
      var status := draft.analysis.status;
      var id := session.UpsertIngested(draft);
      if id.None? {
        return Ok(Outcome(None, status, true, false));
      }
      if draft.analysis.labels.urgency == HIGH {
        if !reachable {
          return Err(Unavailable);
        }
        notifications := notifications + [id.value];
        return Ok(Outcome(id, status, false, true));
      }
      return Ok(Outcome(id, status, false, false));
    }

    /**
      `ingest_from_key`. The model sees one text, the masked and normalised one; whatever fails
      before the insert leaves the tables alone; a duplicate is neither stored nor notified; an
      urgent new report is notified, and if that fails the whole ingest does.
     */
    method IngestFromKey(key: string, a: Answers) returns (r: Result<Outcome, Error>)
      requires Valid()
      modifies this, session, session.database`lastReport
      ensures ingestTotal == old(ingestTotal) + 1
      ensures asked == old(asked) + if key in env.objects
                                    then [Normalized(corrections, Masking.MaskedText(env.u, a.tokens))] else []
      ensures !Reaches(env, key, a) ==>
                && r.Err? && session.working == old(session.working) && notifications == old(notifications)
                && session.database.lastReport == old(session.database.lastReport)
      ensures Reaches(env, key, a) ==>
                var draft := DraftOf(env, key, a);
                var id := session.database.lastReport;
                && id == old(session.database.lastReport) + 1
                && if HasKey(old(session.working.facts), draft.report.sourceKey) then
                     && r == Ok(Outcome(None, draft.analysis.status, true, false))
                     && session.working == old(session.working) && notifications == old(notifications)
                   else
                     && session.working == old(session.working).(facts := Inserted(old(session.working.facts), id, draft))
                     && if IsHigh(draft) && !a.notified then r.Err? && notifications == old(notifications)
                        else && r == Ok(Outcome(Some(id), draft.analysis.status, false, IsHigh(draft)))
                             && notifications == old(notifications) + if IsHigh(draft) then [id] else []
    {
      hide Normalized;
      hide Masking.MaskedText;
      hide DraftFor;
      hide IsHigh;
      hide HasKey;
      hide Inserted;
      ingestTotal := ingestTotal + 1;
      if key !in env.objects {
        return Err(Unavailable);
      }
      var drafted := Classify(env.objects[key], a);
      if drafted.Err? {
        return Err(drafted.error);
      }
      r := Persist(drafted.value, a.notified);
    }
  }

  // ---------- one message ----------

  /** The tables and the id sequence. */
  datatype Point = Point(facts: Facts, last: nat)

  /** The ingest of this key inserts an urgent row. */
  predicate Alerts(env: Env, facts: Facts, key: string, a: Answers) {
    && Reaches(env, key, a)
    && !HasKey(facts, DraftOf(env, key, a).report.sourceKey) && IsHigh(DraftOf(env, key, a))
  }

  predicate Succeeds(env: Env, facts: Facts, key: string, a: Answers) {
    Reaches(env, key, a) && (Alerts(env, facts, key, a) ==> a.notified) && a.commits
  }

  /** What one key leaves behind: its rows if it is new and succeeds, and a used id if it got that far. */
  function After(env: Env, p: Point, key: string, a: Answers): Point {
    if !Reaches(env, key, a) then p
    else
      var draft := DraftOf(env, key, a);
      var stores := Succeeds(env, p.facts, key, a) && !HasKey(p.facts, draft.report.sourceKey);
      Point(if stores then Inserted(p.facts, p.last + 1, draft) else p.facts, p.last + 1)
  }

  /** What the first `n` keys leave behind. */
  function AfterKeys(env: Env, p: Point, keys: seq<string>, answers: seq<Answers>, n: nat): Point
    requires n <= |keys| == |answers|
  {
    if n == 0 then p else After(env, AfterKeys(env, p, keys, answers, n - 1), keys[n - 1], answers[n - 1])
  }

  /** The object behind the key has its report. */
  predicate Stored(env: Env, facts: Facts, key: string) {
    key in env.objects && HasKey(facts, env.objects[key].sourceKey)
  }

  predicate Fresh(p: Point) {
    forall id :: id in p.facts.reports ==> id <= p.last
  }

  lemma AfterKeeps(env: Env, p: Point, key: string, a: Answers)
    requires Fresh(p)
    ensures Fresh(After(env, p, key, a))
    ensures Succeeds(env, p.facts, key, a) ==> Stored(env, After(env, p, key, a).facts, key)
    ensures forall k :: Stored(env, p.facts, k) ==> Stored(env, After(env, p, key, a).facts, k)
  {
    hide AsStored;
    hide BuildChunks;
    var q := After(env, p, key, a);
    forall k | Stored(env, p.facts, k) ensures Stored(env, q.facts, k) {
      var id :| id in p.facts.reports && p.facts.reports[id].sourceKey == env.objects[k].sourceKey;
      assert id in q.facts.reports && q.facts.reports[id] == p.facts.reports[id];
    }
    if Succeeds(env, p.facts, key, a) && !HasKey(p.facts, env.objects[key].sourceKey) {
      assert p.last + 1 in q.facts.reports;
    }
  }

  /** One key in its own unit of work: exactly when it succeeds, and what it leaves. */
  method ProcessKey(env: Env, database: Database, corrections: seq<Correction>, key: string, a: Answers)
    returns (r: Result<Outcome, Error>)
    modifies database`committed, database`lastReport
    ensures r.Ok? <==> Succeeds(env, old(database.committed.facts), key, a)
    ensures Point(database.committed.facts, database.lastReport) ==
            After(env, Point(old(database.committed.facts), old(database.lastReport)), key, a)
    ensures database.committed == old(database.committed).(facts := database.committed.facts)
  {
    hide DraftFor;
    hide HasKey;
    hide IsHigh;
    hide Inserted;
    var session := new Session(database);
    var service := new IngestService(env, session, corrections);
    r := service.IngestFromKey(key, a);
    r := UseCases.Finish(session, r, a.commits);
  }

  /** The first `n` keys succeed. */
  predicate AllSucceed(env: Env, p: Point, keys: seq<string>, answers: seq<Answers>, n: nat)
    requires n <= |keys| == |answers|
  {
    forall i :: 0 <= i < n ==> Succeeds(env, AfterKeys(env, p, keys, answers, i).facts, keys[i], answers[i])
  }

  /** Keys that succeeded stay stored, whatever comes behind them. */
  lemma {:induction false} SuccessesStay(env: Env, p: Point, keys: seq<string>, answers: seq<Answers>, n: nat, m: nat)
    requires n <= m <= |keys| == |answers| && Fresh(p) && AllSucceed(env, p, keys, answers, n)
    ensures Fresh(AfterKeys(env, p, keys, answers, m))
    ensures forall i :: 0 <= i < n ==> Stored(env, AfterKeys(env, p, keys, answers, m).facts, keys[i])
    decreases m
  {
    hide Fresh;
    hide Succeeds;
    hide After;
    hide Stored;
    if m > 0 {
      SuccessesStay(env, p, keys, answers, if n < m then n else m - 1, m - 1);
      AfterKeeps(env, AfterKeys(env, p, keys, answers, m - 1), keys[m - 1], answers[m - 1]);
    }
  }

  /**
    `process_message` and the deletion: the keys in order, each committed on its own, up to the first
    that fails; the message is deleted exactly if none does, and then every key has its report.
   */
  method Handle(env: Env, database: Database, corrections: seq<Correction>, keys: seq<string>, answers: seq<Answers>)
    returns (done: nat, deleted: bool)
    requires Fresh(Point(database.committed.facts, database.lastReport)) && |answers| == |keys|
    modifies database`committed, database`lastReport
    ensures done <= |keys| && (deleted <==> done == |keys|)
    ensures var p := Point(old(database.committed.facts), old(database.lastReport));
            && AllSucceed(env, p, keys, answers, done)
            && (done < |keys| ==>
                  !Succeeds(env, AfterKeys(env, p, keys, answers, done).facts, keys[done], answers[done]))
            && Point(database.committed.facts, database.lastReport) ==
               AfterKeys(env, p, keys, answers, if done < |keys| then done + 1 else done)
    ensures database.committed == old(database.committed).(facts := database.committed.facts)
    ensures forall i :: 0 <= i < done ==> Stored(env, database.committed.facts, keys[i])
  {
    hide Stored;
    hide Succeeds;
    hide After;
    hide Fresh;
    ghost var p := Point(database.committed.facts, database.lastReport);
    done, deleted := 0, false;
    while done < |keys|
      invariant done <= |keys|
      invariant Point(database.committed.facts, database.lastReport) == AfterKeys(env, p, keys, answers, done)
      invariant database.committed == old(database.committed).(facts := database.committed.facts)
      invariant AllSucceed(env, p, keys, answers, done)
    {
      var r := ProcessKey(env, database, corrections, keys[done], answers[done]);
      if r.Err? {
        SuccessesStay(env, p, keys, answers, done, done + 1);
        return;
      }
      done := done + 1;
    }
    SuccessesStay(env, p, keys, answers, done, done);
    deleted := true;
  }

  // ---------- the step system does the same ----------

  /** The steps of a handler that nothing interferes with, given the outside world's answers. */
  function StepsOf(env: Env, w: State, h: nat, a: Answers): seq<Step>
    requires Current(w, h)
  {
    var key := Pipeline.Key(w, h);
    if !Reaches(env, key, a) then [Step.Fail(h, false)]
    else
      var start := [Step.Fetch(h, a.model.value), Step.Insert(h)];
      var end := if a.commits then Step.Commit(h, true) else Step.Fail(h, false);
      if !Alerts(env, w.ledger.facts, key, a) then start + [end]
      else if !a.notified then start + [Step.Fail(h, false)]
      else start + [Step.Notify(h), end]
  }

  /** What an ingest does to the ledger, and where it leaves its handler. */
  ghost predicate Ingests(env: Env, w: State, h: nat, a: Answers, v: State)
    requires Current(w, h)
  {
    var key := Pipeline.Key(w, h);
    var alert := if Alerts(env, w.ledger.facts, key, a) && a.notified then multiset{env.objects[key].sourceKey}
                 else multiset{};
    && Point(v.ledger.facts, v.ledger.lastId) == After(env, Point(w.ledger.facts, w.ledger.lastId), key, a)
    && v.ledger.pending == w.ledger.pending && v.messages == w.messages
    && v.ledger.sent == w.ledger.sent + alert
    && v.ledger.wasted == w.ledger.wasted + (if a.commits then multiset{} else alert)
    && |v.handlers| == |w.handlers| && v.handlers == w.handlers[h := v.handlers[h]]
    && v.handlers[h] == if Succeeds(env, w.ledger.facts, key, a)
                        then Handler(w.handlers[h].message, w.handlers[h].done + 1,
                                     Start(Keys(w, h), w.handlers[h].done + 1))
                        else w.handlers[h].(phase := Stopped)
  }

  /** Nobody else has the source key of the object in an open transaction. */
  predicate Undisturbed(env: Env, w: State, h: nat) {
    && Current(w, h) && w.handlers[h].phase.Fetching?
    && (Pipeline.Key(w, h) in env.objects ==> env.objects[Pipeline.Key(w, h)].sourceKey !in w.ledger.pending)
  }

  lemma RunThree(env: Env, w: State, a: Step, b: Step, c: Step)
    requires Enabled(env, w, a) && Enabled(env, Next(env, w, a), b)
    requires Enabled(env, Next(env, Next(env, w, a), b), c)
    ensures Possible(env, w, [a, b] + [c])
    ensures Run(env, w, [a, b] + [c]) == Next(env, Next(env, Next(env, w, a), b), c)
  {
    hide Run;
    hide Possible;
    hide Enabled;
    hide Next;
    var x := Next(env, w, a);
    RunOne(env, Next(env, x, b), c);
    RunCons(env, x, b, [c]);
    RunCons(env, w, a, [b] + [c]);
    assert [a, b] + [c] == [a] + ([b] + [c]);
  }

  lemma RunFour(env: Env, w: State, a: Step, b: Step, c: Step, d: Step)
    requires Enabled(env, w, a) && Enabled(env, Next(env, w, a), b)
    requires Enabled(env, Next(env, Next(env, w, a), b), c)
    requires Enabled(env, Next(env, Next(env, Next(env, w, a), b), c), d)
    ensures Possible(env, w, [a, b] + [c, d])
    ensures Run(env, w, [a, b] + [c, d]) == Next(env, Next(env, Next(env, Next(env, w, a), b), c), d)
  {
    hide Run;
    hide Possible;
    hide Enabled;
    hide Next;
    var x := Next(env, w, a);
    RunThree(env, x, b, c, d);
    RunCons(env, w, a, [b, c] + [d]);
    assert [a, b] + [c, d] == [a] + ([b, c] + [d]);
  }

  /** Fetched and about to be inserted. */
  lemma AfterFetch(env: Env, w: State, h: nat, a: Answers)
    requires Undisturbed(env, w, h) && Reaches(env, Pipeline.Key(w, h), a) && InRange(a.model.value)
    ensures Enabled(env, w, Step.Fetch(h, a.model.value))
    ensures var x := Next(env, w, Step.Fetch(h, a.model.value));
            && x == SetPhase(w, h, Inserting(DraftOf(env, Pipeline.Key(w, h), a)))
            && Enabled(env, x, Step.Insert(h))
  {
    hide BuildChunks;
  }

  lemma DraftKey(env: Env, key: string, a: Answers)
    requires Reaches(env, key, a)
    ensures DraftOf(env, key, a).report.sourceKey == env.objects[key].sourceKey
  {
  }

  lemma IngestQuietly(env: Env, w: State, h: nat, a: Answers)
    requires Undisturbed(env, w, h) && Reaches(env, Pipeline.Key(w, h), a) && InRange(a.model.value)
    requires !Alerts(env, w.ledger.facts, Pipeline.Key(w, h), a) && a.commits
    ensures Possible(env, w, StepsOf(env, w, h, a)) && Ingests(env, w, h, a, Run(env, w, StepsOf(env, w, h, a)))
  {
    hide Run;
    hide Possible;
    hide DraftFor;
    hide IsHigh;
    hide HasKey;
    hide Inserted;
    var x := Next(env, w, Step.Fetch(h, a.model.value));
    AfterFetch(env, w, h, a);
    var y := Next(env, x, Step.Insert(h));
    RunThree(env, w, Step.Fetch(h, a.model.value), Step.Insert(h), Step.Commit(h, true));
    var v := Next(env, y, Step.Commit(h, true));
    assert v.ledger.pending == w.ledger.pending;
    assert v.handlers == w.handlers[h := v.handlers[h]];
    assert w.ledger.sent + multiset{} == w.ledger.sent && w.ledger.wasted + multiset{} == w.ledger.wasted;
  }

  lemma IngestUncommitted(env: Env, w: State, h: nat, a: Answers)
    requires Undisturbed(env, w, h) && Reaches(env, Pipeline.Key(w, h), a) && InRange(a.model.value)
    requires !Alerts(env, w.ledger.facts, Pipeline.Key(w, h), a) && !a.commits
    ensures Possible(env, w, StepsOf(env, w, h, a)) && Ingests(env, w, h, a, Run(env, w, StepsOf(env, w, h, a)))
  {
    hide Run;
    hide Possible;
    hide DraftFor;
    hide IsHigh;
    hide HasKey;
    hide Inserted;
    var x := Next(env, w, Step.Fetch(h, a.model.value));
    AfterFetch(env, w, h, a);
    var y := Next(env, x, Step.Insert(h));
    RunThree(env, w, Step.Fetch(h, a.model.value), Step.Insert(h), Step.Fail(h, false));
    var v := Next(env, y, Step.Fail(h, false));
    assert v.ledger.pending == w.ledger.pending;
    assert v.handlers == w.handlers[h := v.handlers[h]];
    assert w.ledger.sent + multiset{} == w.ledger.sent && w.ledger.wasted + multiset{} == w.ledger.wasted;
  }

  lemma IngestUnnotified(env: Env, w: State, h: nat, a: Answers)
    requires Undisturbed(env, w, h) && Reaches(env, Pipeline.Key(w, h), a) && InRange(a.model.value)
    requires Alerts(env, w.ledger.facts, Pipeline.Key(w, h), a) && !a.notified
    ensures Possible(env, w, StepsOf(env, w, h, a)) && Ingests(env, w, h, a, Run(env, w, StepsOf(env, w, h, a)))
  {
    hide Run;
    hide Possible;
    hide DraftFor;
    hide IsHigh;
    hide HasKey;
    hide Inserted;
    var x := Next(env, w, Step.Fetch(h, a.model.value));
    AfterFetch(env, w, h, a);
    var y := Next(env, x, Step.Insert(h));
    RunThree(env, w, Step.Fetch(h, a.model.value), Step.Insert(h), Step.Fail(h, false));
    var v := Next(env, y, Step.Fail(h, false));
    assert v.ledger.pending == w.ledger.pending;
    assert v.handlers == w.handlers[h := v.handlers[h]];
    assert w.ledger.sent + multiset{} == w.ledger.sent && w.ledger.wasted + multiset{} == w.ledger.wasted;
  }

  lemma IngestNotified(env: Env, w: State, h: nat, a: Answers)
    requires Undisturbed(env, w, h) && Reaches(env, Pipeline.Key(w, h), a) && InRange(a.model.value)
    requires Alerts(env, w.ledger.facts, Pipeline.Key(w, h), a) && a.notified && a.commits
    ensures Possible(env, w, StepsOf(env, w, h, a)) && Ingests(env, w, h, a, Run(env, w, StepsOf(env, w, h, a)))
  {
    hide Run;
    hide Possible;
    hide DraftFor;
    hide IsHigh;
    hide HasKey;
    hide Inserted;
    var x := Next(env, w, Step.Fetch(h, a.model.value));
    AfterFetch(env, w, h, a);
    var y := Next(env, x, Step.Insert(h));
    var z := Next(env, y, Step.Notify(h));
    RunFour(env, w, Step.Fetch(h, a.model.value), Step.Insert(h), Step.Notify(h), Step.Commit(h, true));
    var v := Next(env, z, Step.Commit(h, true));
    var alert := multiset{env.objects[Pipeline.Key(w, h)].sourceKey};
    DraftKey(env, Pipeline.Key(w, h), a);
    assert v.ledger.pending == w.ledger.pending;
    assert v.handlers == w.handlers[h := v.handlers[h]];
    assert (w.ledger.sent + alert) + multiset{} == w.ledger.sent + alert;
    assert w.ledger.wasted + multiset{} == w.ledger.wasted;
  }

  lemma IngestWasted(env: Env, w: State, h: nat, a: Answers)
    requires Undisturbed(env, w, h) && Reaches(env, Pipeline.Key(w, h), a) && InRange(a.model.value)
    requires Alerts(env, w.ledger.facts, Pipeline.Key(w, h), a) && a.notified && !a.commits
    ensures Possible(env, w, StepsOf(env, w, h, a)) && Ingests(env, w, h, a, Run(env, w, StepsOf(env, w, h, a)))
  {
    hide Run;
    hide Possible;
    hide DraftFor;
    hide IsHigh;
    hide HasKey;
    hide Inserted;
    var x := Next(env, w, Step.Fetch(h, a.model.value));
    AfterFetch(env, w, h, a);
    var y := Next(env, x, Step.Insert(h));
    var z := Next(env, y, Step.Notify(h));
    RunFour(env, w, Step.Fetch(h, a.model.value), Step.Insert(h), Step.Notify(h), Step.Fail(h, false));
    var v := Next(env, z, Step.Fail(h, false));
    var alert := multiset{env.objects[Pipeline.Key(w, h)].sourceKey};
    DraftKey(env, Pipeline.Key(w, h), a);
    assert v.ledger.pending == w.ledger.pending;
    assert v.handlers == w.handlers[h := v.handlers[h]];
    assert (w.ledger.sent + alert) + multiset{} == w.ledger.sent + alert;
    assert w.ledger.wasted + multiset{} == w.ledger.wasted;
  }

  lemma IngestUnreached(env: Env, w: State, h: nat, a: Answers)
    requires Undisturbed(env, w, h) && !Reaches(env, Pipeline.Key(w, h), a)
    ensures Possible(env, w, StepsOf(env, w, h, a)) && Ingests(env, w, h, a, Run(env, w, StepsOf(env, w, h, a)))
  {
    hide Run;
    hide Possible;
    RunOne(env, w, Step.Fail(h, false));
    var v := Run(env, w, StepsOf(env, w, h, a));
    var key := Pipeline.Key(w, h);
    assert v == SetPhase(w, h, Stopped);
    assert !Alerts(env, w.ledger.facts, key, a) && !Succeeds(env, w.ledger.facts, key, a);
    assert After(env, Point(w.ledger.facts, w.ledger.lastId), key, a) == Point(v.ledger.facts, v.ledger.lastId);
    assert v.ledger.sent == w.ledger.sent + multiset{};
    assert v.ledger.wasted == w.ledger.wasted + multiset{};
    assert v.handlers == w.handlers[h := v.handlers[h]];
  }

  /**
    On every branch, success or failure, an undisturbed handler of the step system does to the tables
    what `ProcessKey` does, and goes on to the next key exactly when `ProcessKey` succeeds.
   */
  lemma IngestIsSteps(env: Env, w: State, h: nat, a: Answers)
    requires Undisturbed(env, w, h) && (a.model.Ok? ==> InRange(a.model.value))
    ensures Possible(env, w, StepsOf(env, w, h, a)) && Ingests(env, w, h, a, Run(env, w, StepsOf(env, w, h, a)))
  {
    hide Run;
    hide Possible;
    hide StepsOf;
    hide Ingests;
    hide Alerts;
    var key := Pipeline.Key(w, h);
    if !Reaches(env, key, a) {
      IngestUnreached(env, w, h, a);
    } else if !Alerts(env, w.ledger.facts, key, a) {
      if a.commits {
        IngestQuietly(env, w, h, a);
      } else {
        IngestUncommitted(env, w, h, a);
      }
    } else if !a.notified {
      IngestUnnotified(env, w, h, a);
    } else if a.commits {
      IngestNotified(env, w, h, a);
    } else {
      IngestWasted(env, w, h, a);
    }
  }

  // ---------- single runs ----------

  /** The first delivery of a message with one key. */
  lemma FirstDelivery(env: Env, o: string)
    ensures Enabled(env, Initial([[o]]), Receive(0))
    ensures var w := Next(env, Initial([[o]]), Receive(0));
            && w == State(Initial([[o]]).ledger, [Message([o], IN_FLIGHT, 1)], [Handler(0, 0, Fetching)])
            && Undisturbed(env, w, 0) && Pipeline.Key(w, 0) == o
  {
  }

  /** Every readable object can be classified in every way, and committed so. */
  lemma CanBeCommitted(env: Env, o: string, c: Classification) returns (steps: seq<Step>)
    requires o in env.objects && InRange(c)
    ensures Possible(env, Initial([[o]]), steps)
    ensures var l := Run(env, Initial([[o]]), steps).ledger;
            var draft := DraftFor(env, env.objects[o], c);
            l.facts == Inserted(Facts(map[], map[], map[]), 1, draft)
  {
    hide Run;
    hide Possible;
    hide DraftFor;
    hide StepsOf;
    hide Undisturbed;
    var a := Answers([], Ok(c), true, true, true);
    FirstDelivery(env, o);
    var w := Next(env, Initial([[o]]), Receive(0));
    hide Enabled;
    hide Next;
    IngestIsSteps(env, w, 0, a);
    RunCons(env, Initial([[o]]), Receive(0), StepsOf(env, w, 0, a));
    steps := [Receive(0)] + StepsOf(env, w, 0, a);
  }
}
