/**
  The queue worker as a step system (app/worker/main.py, app/services/ingest.py,
  app/infra/db/repositories.py, app/core/db.py). Handlers of any number of worker processes
  interleave; each key of a message gets its own transaction; any of them can fail anywhere.
 */
module Pipeline {
  import opened Text
  import opened Domain
  import opened Tables
  import opened Chunking

  const MAX_RECEIVES: nat := 3

  /** The JSON object behind an S3 key. */
  datatype Payload = Payload(sourceKey: string, property: nat, reportedAt: Instant, rawText: string)

  /** What the language model says about a report. */
  datatype Classification = Classification(labels: Labels, summary: string, confidence: real)

  /** The model's answer is validated. */
  predicate InRange(c: Classification) { 0.0 <= c.confidence <= 1.0 }

  /** What does not change during a run. Keys without a readable object are absent. */
  datatype Env = Env(u: Unicode, objects: map<string, Payload>, threshold: real)

  function StatusFor(env: Env, confidence: real): AnalysisStatus {
    if confidence < env.threshold then NEEDS_REVIEW else AUTO_CLASSIFIED
  }

  function DraftFor(env: Env, p: Payload, c: Classification): Draft {
    Draft(Report(p.property, p.sourceKey, p.reportedAt, p.rawText),
          Analysis(c.labels, c.summary, c.confidence, StatusFor(env, c.confidence)),
          BuildChunks(env.u, c.summary, p.rawText))
  }

  // ---------- state ----------

  datatype Place = QUEUED | IN_FLIGHT | DELETED | DEAD

  datatype Message = Message(keys: seq<string>, place: Place, received: nat)

  /** Where a handler is in its current transaction, or between two. */
  datatype Phase =
    | Fetching
    | Inserting(draft: Draft)
    | Notifying(key: string)
    | Committing(key: string, inserted: bool)
    | Deleting
    | Stopped

  /** One delivery being processed; `done` keys are committed. */
  datatype Handler = Handler(message: nat, done: nat, phase: Phase)

  /** A row inserted but not committed. The unique index admits one per source key. */
  datatype Pending = Pending(owner: nat, id: nat, draft: Draft, notified: bool)

  /** What the commit of a source key stored. */
  datatype Ingested = Ingested(id: nat, analysis: Analysis)

  /** The database as its transactions see it, and what went out of it. */
  datatype Ledger = Ledger(
    facts: Facts,
    pending: map<string, Pending>,
    lastId: nat,
    /** Notifications that went out, and those among them whose transaction then rolled back. */
    sent: multiset<string>,
    wasted: multiset<string>,
    /** For every committed source key, what was committed. */
    history: map<string, Ingested>)

  datatype State = State(ledger: Ledger, messages: seq<Message>, handlers: seq<Handler>)

  function Initial(inbox: seq<seq<string>>): State {
    State(Ledger(Facts(map[], map[], map[]), map[], 0, multiset{}, multiset{}, map[]),
          seq(|inbox|, i requires 0 <= i < |inbox| => Message(inbox[i], QUEUED, 0)), [])
  }

  // ---------- the ledger ----------

  predicate IsHigh(draft: Draft) { draft.analysis.labels.urgency == HIGH }

  /** A new row under `key`; not yet visible to others. */
  function Open(l: Ledger, key: string, owner: nat, draft: Draft): Ledger {
    l.(lastId := l.lastId + 1, pending := l.pending[key := Pending(owner, l.lastId + 1, draft, false)])
  }

  function Mark(l: Ledger, key: string): Ledger
    requires key in l.pending
  {
    l.(sent := l.sent + multiset{key}, pending := l.pending[key := l.pending[key].(notified := true)])
  }

  /** The rows of a transaction become visible together. */
  function Publish(l: Ledger, key: string): Ledger
    requires key in l.pending
  {
    var p := l.pending[key];
    l.(facts := Inserted(l.facts, p.id, p.draft),
       history := l.history[key := Ingested(p.id, p.draft.analysis)],
       pending := l.pending - {key})
  }

  /** Rollback. `delivered`: a notification went out in the step that failed. */
  function Drop(l: Ledger, key: string, delivered: bool): Ledger
    requires key in l.pending
  {
    var out := if delivered then multiset{key} else multiset{};
    var lost := if delivered || l.pending[key].notified then multiset{key} else multiset{};
    l.(pending := l.pending - {key}, sent := l.sent + out, wasted := l.wasted + lost)
  }

  function Relabel(l: Ledger, report: nat, labels: Labels): Ledger
    requires report in l.facts.analyses
  {
    l.(facts := l.facts.(analyses := l.facts.analyses[report := Relabelled(l.facts.analyses[report], labels)]))
  }

  // ---------- steps ----------

  datatype Step =
    | Receive(m: nat)
    | Redrive(m: nat)
    | Expire(m: nat)
    | Fetch(h: nat, c: Classification)
    | Insert(h: nat)
    | Notify(h: nat)
    | Commit(h: nat, acknowledged: bool)
    | Delete(h: nat, effective: bool)
    | Fail(h: nat, delivered: bool)
    /** A user's override, from outside the worker. */
    | Override(report: nat, labels: Labels)

  predicate At(w: State, m: nat, place: Place) {
    m < |w.messages| && w.messages[m].place == place
  }

  predicate Active(w: State, h: nat) {
    h < |w.handlers| && w.handlers[h].message < |w.messages|
  }

  function Keys(w: State, h: nat): seq<string>
    requires Active(w, h)
  {
    w.messages[w.handlers[h].message].keys
  }

  predicate Current(w: State, h: nat) {
    Active(w, h) && w.handlers[h].done < |Keys(w, h)|
  }

  /** The key being worked on. */
  function Key(w: State, h: nat): string
    requires Current(w, h)
  {
    Keys(w, h)[w.handlers[h].done]
  }

  predicate Enabled(env: Env, w: State, s: Step) {
    match s
    case Receive(m) => At(w, m, QUEUED) && w.messages[m].received < MAX_RECEIVES
    case Redrive(m) => At(w, m, QUEUED) && w.messages[m].received >= MAX_RECEIVES
    case Expire(m) => At(w, m, IN_FLIGHT)
    case Fetch(h, c) =>
      Current(w, h) && w.handlers[h].phase.Fetching? && Key(w, h) in env.objects && InRange(c)
    case Insert(h) =>
      // waits while another transaction holds the key
      Active(w, h) && w.handlers[h].phase.Inserting? && w.handlers[h].phase.draft.report.sourceKey !in w.ledger.pending
    case Notify(h) => Active(w, h) && w.handlers[h].phase.Notifying? && w.handlers[h].phase.key in w.ledger.pending
    case Commit(h, _) =>
      && Active(w, h) && w.handlers[h].phase.Committing?
      && (w.handlers[h].phase.inserted ==> w.handlers[h].phase.key in w.ledger.pending)
    case Delete(h, _) => Active(w, h) && w.handlers[h].phase.Deleting?
    case Fail(h, delivered) =>
      && Active(w, h) && !w.handlers[h].phase.Stopped?
      && (delivered ==> w.handlers[h].phase.Notifying?)
    case Override(report, _) => report in w.ledger.facts.reports && report in w.ledger.facts.analyses
  }

  function SetPlace(w: State, m: nat, place: Place): State
    requires m < |w.messages|
  {
    w.(messages := w.messages[m := w.messages[m].(place := place)])
  }

  function SetPhase(w: State, h: nat, phase: Phase): State
    requires h < |w.handlers|
  {
    w.(handlers := w.handlers[h := w.handlers[h].(phase := phase)])
  }

  /** The phase at the start of key `done`. */
  function Start(keys: seq<string>, done: nat): Phase {
    if done < |keys| then Fetching else Deleting
  }

  function Received(w: State, m: nat): State
    requires m < |w.messages|
  {
    var message := w.messages[m];
    w.(messages := w.messages[m := message.(place := IN_FLIGHT, received := message.received + 1)],
       handlers := w.handlers + [Handler(m, 0, Start(message.keys, 0))])
  }

  /** `INSERT … ON CONFLICT DO NOTHING`; the sequence moves either way. */
  function InsertRow(w: State, h: nat): State
    requires h < |w.handlers| && w.handlers[h].phase.Inserting?
  {
    var draft := w.handlers[h].phase.draft;
    var key := draft.report.sourceKey;
    if HasKey(w.ledger.facts, key) then
      SetPhase(w.(ledger := w.ledger.(lastId := w.ledger.lastId + 1)), h, Committing(key, false))
    else
      SetPhase(w.(ledger := Open(w.ledger, key, h, draft)), h,
               if IsHigh(draft) then Notifying(key) else Committing(key, true))
  }

  function SendNotification(w: State, h: nat): State
    requires h < |w.handlers| && w.handlers[h].phase.Notifying? && w.handlers[h].phase.key in w.ledger.pending
  {
    var key := w.handlers[h].phase.key;
    SetPhase(w.(ledger := Mark(w.ledger, key)), h, Committing(key, true))
  }

  function CommitKey(w: State, h: nat, acknowledged: bool): State
    requires Active(w, h) && w.handlers[h].phase.Committing?
    requires w.handlers[h].phase.inserted ==> w.handlers[h].phase.key in w.ledger.pending
  {
    var handler := w.handlers[h];
    var stored := if handler.phase.inserted then w.(ledger := Publish(w.ledger, handler.phase.key)) else w;
    if acknowledged then
      stored.(handlers := w.handlers[h := Handler(handler.message, handler.done + 1,
                                                  Start(Keys(w, h), handler.done + 1))])
    else SetPhase(stored, h, Stopped)
  }

  /** A deletion takes effect on a message that is still in the queue, or is lost. */
  function DeleteMessage(w: State, h: nat, effective: bool): State
    requires Active(w, h)
  {
    var m := w.handlers[h].message;
    SetPhase(if effective && (At(w, m, QUEUED) || At(w, m, IN_FLIGHT)) then SetPlace(w, m, DELETED) else w, h, Stopped)
  }

  /** Any exception or crash: the open transaction rolls back, the message stays. */
  function Failed(w: State, h: nat, delivered: bool): State
    requires h < |w.handlers|
  {
    var phase := w.handlers[h].phase;
    if !(phase.Notifying? || (phase.Committing? && phase.inserted)) || phase.key !in w.ledger.pending then
      SetPhase(w, h, Stopped)
    else SetPhase(w.(ledger := Drop(w.ledger, phase.key, delivered)), h, Stopped)
  }

  function Next(env: Env, w: State, s: Step): State
    requires Enabled(env, w, s)
  {
    match s
    case Receive(m) => Received(w, m)
    case Redrive(m) => SetPlace(w, m, DEAD)
    case Expire(m) => SetPlace(w, m, QUEUED)
    case Fetch(h, c) => SetPhase(w, h, Inserting(DraftFor(env, env.objects[Key(w, h)], c)))
    case Insert(h) => InsertRow(w, h)
    case Notify(h) => SendNotification(w, h)
    case Commit(h, acknowledged) => CommitKey(w, h, acknowledged)
    case Delete(h, effective) => DeleteMessage(w, h, effective)
    case Fail(h, delivered) => Failed(w, h, delivered)
    case Override(report, labels) => w.(ledger := Relabel(w.ledger, report, labels))
  }

  /** `steps` can be taken one after the other from `w`. */
  predicate Possible(env: Env, w: State, steps: seq<Step>)
    decreases |steps|
  {
    steps == [] || (Enabled(env, w, steps[0]) && Possible(env, Next(env, w, steps[0]), steps[1..]))
  }

  function Run(env: Env, w: State, steps: seq<Step>): State
    requires Possible(env, w, steps)
    decreases |steps|
  {
    if steps == [] then w else Run(env, Next(env, w, steps[0]), steps[1..])
  }

  lemma RunCons(env: Env, w: State, s: Step, rest: seq<Step>)
    requires Enabled(env, w, s) && Possible(env, Next(env, w, s), rest)
    ensures Possible(env, w, [s] + rest) && Run(env, w, [s] + rest) == Run(env, Next(env, w, s), rest)
  {
    assert ([s] + rest)[0] == s && ([s] + rest)[1..] == rest;
  }

  lemma RunOne(env: Env, w: State, s: Step)
    requires Enabled(env, w, s)
    ensures Possible(env, w, [s]) && Run(env, w, [s]) == Next(env, w, s)
  {
    assert [s] + [] == [s];
    RunCons(env, w, s, []);
  }

  lemma {:induction false} RunConcat(env: Env, w: State, a: seq<Step>, b: seq<Step>)
    requires Possible(env, w, a) && Possible(env, Run(env, w, a), b)
    ensures Possible(env, w, a + b) && Run(env, w, a + b) == Run(env, Run(env, w, a), b)
    decreases |a|
  {
    hide Enabled;
    hide Next;
    if a == [] {
      assert a + b == b;
    } else {
      assert (a + b)[1..] == a[1..] + b && (a + b)[0] == a[0];
      RunConcat(env, Next(env, w, a[0]), a[1..], b);
    }
  }
}
