/** Safety of whole runs of the worker, in every interleaving of handlers, failures and redeliveries. */
module PipelineRuns {
  import opened Domain
  import opened Tables
  import opened Pipeline
  import opened LedgerLaws
  import opened PipelineSafety

  lemma InitialOk(env: Env, inbox: seq<seq<string>>)
    ensures Inv(env, Initial(inbox))
  {
    var w := Initial(inbox);
    forall k ensures Balanced(w.ledger, k) {
    }
  }

  lemma StepKeeps(env: Env, w: State, s: Step)
    requires Inv(env, w) && Enabled(env, w, s)
    ensures Inv(env, Next(env, w, s))
  {
    hide Inv;
    hide Enabled;
    hide Next;
    match s
    case Receive(m) => ReceiveKeeps(env, w, m);
    case Redrive(m) => RedriveKeeps(env, w, m);
    case Expire(m) => ExpireKeeps(env, w, m);
    case Fetch(h, c) => FetchKeeps(env, w, h, c);
    case Insert(h) => InsertKeeps(env, w, h);
    case Notify(h) => NotifyKeeps(env, w, h);
    case Commit(h, acknowledged) => CommitKeeps(env, w, h, acknowledged);
    case Delete(h, effective) => DeleteKeeps(env, w, h, effective);
    case Fail(h, delivered) => FailKeeps(env, w, h, delivered);
    case Override(report, labels) => OverrideKeeps(env, w, report, labels);
  }

  lemma {:induction false} RunKeeps(env: Env, w: State, steps: seq<Step>)
    requires Inv(env, w) && Possible(env, w, steps)
    ensures Inv(env, Run(env, w, steps))
    decreases |steps|
  {
    hide Inv;
    hide Enabled;
    hide Next;
    if steps != [] {
      StepKeeps(env, w, steps[0]);
      RunKeeps(env, Next(env, w, steps[0]), steps[1..]);
    }
  }

  lemma RunOk(env: Env, inbox: seq<seq<string>>, steps: seq<Step>)
    requires Possible(env, Initial(inbox), steps)
    ensures Inv(env, Run(env, Initial(inbox), steps))
  {
    InitialOk(env, inbox);
    RunKeeps(env, Initial(inbox), steps);
  }

  // ---------- what runs never lose ----------

  /** Nothing committed is lost or rewritten; a human decision is final for the pipeline. */
  ghost predicate RowFollows(f: Facts, g: Facts, id: nat) {
    id in f.reports && id in f.analyses && id in f.chunks ==>
      && id in g.reports && g.reports[id] == f.reports[id]
      && id in g.chunks && g.chunks[id] == f.chunks[id]
      && id in g.analyses
      && (g.analyses[id] == f.analyses[id] || g.analyses[id] == Relabelled(f.analyses[id], g.analyses[id].labels))
  }

  ghost predicate FactsFollow(f: Facts, g: Facts) {
    forall id :: RowFollows(f, g, id)
  }

  ghost predicate MessageFollows(a: Message, b: Message) {
    && b.keys == a.keys && b.received >= a.received
    && (a.place == DELETED || a.place == DEAD ==> b == a)
  }

  ghost predicate Follows(w: State, v: State) {
    && FactsFollow(w.ledger.facts, v.ledger.facts)
    && |v.messages| == |w.messages|
    && forall m :: 0 <= m < |w.messages| ==> MessageFollows(w.messages[m], v.messages[m])
  }

  lemma FactsFollowSelf(f: Facts)
    ensures FactsFollow(f, f)
  {
  }

  lemma FollowsTransitive(u: State, w: State, v: State)
    requires Follows(u, w) && Follows(w, v)
    ensures Follows(u, v)
  {
    forall id ensures RowFollows(u.ledger.facts, v.ledger.facts, id) {
      assert RowFollows(u.ledger.facts, w.ledger.facts, id) && RowFollows(w.ledger.facts, v.ledger.facts, id);
    }
    forall m | 0 <= m < |u.messages| ensures MessageFollows(u.messages[m], v.messages[m]) {
      assert MessageFollows(u.messages[m], w.messages[m]) && MessageFollows(w.messages[m], v.messages[m]);
    }
  }

  lemma PublishFollows(env: Env, l: Ledger, key: string)
    requires PendingOk(env, l) && key in l.pending
    ensures FactsFollow(l.facts, Publish(l, key).facts)
  {
    hide FromObject;
    assert PendingRowOk(env, l, key);
  }

  lemma RelabelFollows(l: Ledger, report: nat, labels: Labels)
    requires report in l.facts.analyses
    ensures FactsFollow(l.facts, Relabel(l, report, labels).facts)
  {
  }

  lemma StepFollowsFacts(env: Env, w: State, s: Step)
    requires PendingOk(env, w.ledger) && Enabled(env, w, s)
    ensures FactsFollow(w.ledger.facts, Next(env, w, s).ledger.facts)
  {
    hide PendingOk;
    hide DraftFor;
    hide Publish;
    hide Relabel;
    hide HasKey;
    hide FactsFollow;
    match s {
      case Commit(h, acknowledged) =>
        if w.handlers[h].phase.inserted {
          PublishFollows(env, w.ledger, w.handlers[h].phase.key);
        } else {
          FactsFollowSelf(w.ledger.facts);
        }
      case Override(report, labels) =>
        RelabelFollows(w.ledger, report, labels);
      case _ =>
        FactsFollowSelf(w.ledger.facts);
    }
  }

  lemma StepFollowsMessages(env: Env, w: State, s: Step)
    requires Enabled(env, w, s)
    ensures var v := Next(env, w, s);
            && |v.messages| == |w.messages|
            && forall m :: 0 <= m < |w.messages| ==> MessageFollows(w.messages[m], v.messages[m])
  {
    hide DraftFor;
    hide Publish;
    hide Relabel;
    hide HasKey;
    hide Open;
    hide Mark;
    hide Drop;
  }

  lemma StepFollows(env: Env, w: State, s: Step)
    requires Inv(env, w) && Enabled(env, w, s)
    ensures Follows(w, Next(env, w, s))
  {
    hide Next;
    hide Enabled;
    hide PendingOk;
    hide FactsFollow;
    hide MessageFollows;
    StepFollowsFacts(env, w, s);
    StepFollowsMessages(env, w, s);
  }

  lemma {:induction false} RunFollows(env: Env, w: State, steps: seq<Step>)
    requires Inv(env, w) && Possible(env, w, steps)
    ensures Follows(w, Run(env, w, steps))
    decreases |steps|
  {
    hide Inv;
    hide Enabled;
    hide Next;
    hide Follows;
    if steps == [] {
      FollowsSelf(w);
    } else {
      var v := Next(env, w, steps[0]);
      StepKeeps(env, w, steps[0]);
      StepFollows(env, w, steps[0]);
      RunFollows(env, v, steps[1..]);
      FollowsTransitive(w, v, Run(env, v, steps[1..]));
    }
  }

  lemma FollowsSelf(w: State)
    ensures Follows(w, w)
  {
    FactsFollowSelf(w.ledger.facts);
    hide FactsFollow;
  }

  // ---------- the results ----------

  lemma RunMessages(env: Env, inbox: seq<seq<string>>, steps: seq<Step>)
    requires Possible(env, Initial(inbox), steps)
    ensures var w := Run(env, Initial(inbox), steps);
            && |w.messages| == |inbox|
            && forall m :: 0 <= m < |inbox| ==> w.messages[m].keys == inbox[m]
  {
    hide Run;
    hide Possible;
    hide FactsFollow;
    InitialOk(env, inbox);
    hide Inv;
    RunFollows(env, Initial(inbox), steps);
    var w := Run(env, Initial(inbox), steps);
    forall m | 0 <= m < |inbox| ensures w.messages[m].keys == inbox[m] {
      assert MessageFollows(Initial(inbox).messages[m], w.messages[m]);
    }
  }

  /**
    At most one report per payload source key, whatever is redelivered, retried or raced; and every
    stored report is some object's payload with the analysis it was classified with, never without
    its analysis and its chunks.
   */
  lemma OneReportPerKey(env: Env, inbox: seq<seq<string>>, steps: seq<Step>, a: nat, b: nat)
    requires Possible(env, Initial(inbox), steps)
    requires var reports := Run(env, Initial(inbox), steps).ledger.facts.reports;
             a in reports && b in reports && reports[a].sourceKey == reports[b].sourceKey
    ensures a == b
    ensures var l := Run(env, Initial(inbox), steps).ledger;
            && l.facts.analyses.Keys == l.facts.reports.Keys == l.facts.chunks.Keys
            && RowOk(env, l, a)
  {
    hide Run;
    hide Possible;
    hide HandlersOk;
    hide OwnersOk;
    hide MessagesOk;
    hide SentOk;
    hide PendingOk;
    hide FromObject;
    hide RowOk;
    RunOk(env, inbox, steps);
  }

  /** A deleted message has a committed report for every key it named. */
  lemma DeletedIsStored(env: Env, inbox: seq<seq<string>>, steps: seq<Step>, m: nat, i: nat)
    requires Possible(env, Initial(inbox), steps) && m < |inbox| && i < |inbox[m]|
    requires At(Run(env, Initial(inbox), steps), m, DELETED)
    ensures inbox[m][i] in env.objects
    ensures HasKey(Run(env, Initial(inbox), steps).ledger.facts, env.objects[inbox[m][i]].sourceKey)
  {
    hide Run;
    hide Possible;
    hide HandlersOk;
    hide OwnersOk;
    hide SentOk;
    hide PendingOk;
    hide RowsOk;
    RunOk(env, inbox, steps);
    RunMessages(env, inbox, steps);
    var w := Run(env, Initial(inbox), steps);
    assert MessageOk(env, w.ledger, w.messages[m]);
    assert Stored(env, w.ledger, w.messages[m].keys[i]);
    KeyIsHistory(w.ledger, env.objects[inbox[m][i]].sourceKey);
  }

  /**
    Notifications per source key: one for a committed report that was classified urgent, none for
    any other, plus those of attempts that are still open or were rolled back after notifying.
   */
  lemma NotificationsExact(env: Env, inbox: seq<seq<string>>, steps: seq<Step>, id: nat)
    requires Possible(env, Initial(inbox), steps)
    requires var f := Run(env, Initial(inbox), steps).ledger.facts; id in f.reports && id in f.analyses
    ensures var l := Run(env, Initial(inbox), steps).ledger;
            var key, analysis := l.facts.reports[id].sourceKey, l.facts.analyses[id];
            && key in l.history && key !in l.pending
            && l.sent[key] == l.wasted[key] + (if l.history[key].analysis.labels.urgency == HIGH then 1 else 0)
            && (analysis.status != HUMAN_VERIFIED ==> analysis == AsStored(l.history[key].analysis))
  {
    hide Run;
    hide Possible;
    hide HandlersOk;
    hide OwnersOk;
    hide MessagesOk;
    hide FromObject;
    RunOk(env, inbox, steps);
    var l := Run(env, Initial(inbox), steps).ledger;
    var key := l.facts.reports[id].sourceKey;
    assert Balanced(l, key);
    assert RowOk(env, l, id);
    assert key in l.pending ==> PendingRowOk(env, l, key);
  }

  /** A key without a committed report has been notified only by attempts open or rolled back. */
  lemma NoStrayNotifications(env: Env, inbox: seq<seq<string>>, steps: seq<Step>, key: string)
    requires Possible(env, Initial(inbox), steps)
    requires !HasKey(Run(env, Initial(inbox), steps).ledger.facts, key)
    ensures var l := Run(env, Initial(inbox), steps).ledger;
            l.sent[key] == l.wasted[key] + if key in l.pending && l.pending[key].notified then 1 else 0
  {
    hide Run;
    hide Possible;
    hide HandlersOk;
    hide OwnersOk;
    hide MessagesOk;
    hide PendingOk;
    hide RowsOk;
    RunOk(env, inbox, steps);
    var l := Run(env, Initial(inbox), steps).ledger;
    assert Balanced(l, key);
    KeyIsHistory(l, key);
  }

  /** The committed urgent report: the notification went out before anyone could see the row. */
  lemma UrgentIsNotified(env: Env, inbox: seq<seq<string>>, steps: seq<Step>, id: nat)
    requires Possible(env, Initial(inbox), steps)
    requires var f := Run(env, Initial(inbox), steps).ledger.facts;
             && id in f.reports && id in f.analyses
             && f.analyses[id].labels.urgency == HIGH && f.analyses[id].status != HUMAN_VERIFIED
    ensures var l := Run(env, Initial(inbox), steps).ledger; l.sent[l.facts.reports[id].sourceKey] >= 1
  {
    hide Run;
    hide Possible;
    NotificationsExact(env, inbox, steps, id);
  }

  /** From any point of a run on, what is committed stays, and statuses only move to human-verified. */
  lemma CommittedStays(env: Env, inbox: seq<seq<string>>, before: seq<Step>, after: seq<Step>, id: nat)
    requires Possible(env, Initial(inbox), before)
    requires var w := Run(env, Initial(inbox), before);
             Possible(env, w, after) && id in w.ledger.facts.reports && id in w.ledger.facts.analyses
    ensures var w := Run(env, Initial(inbox), before);
            var f, g := w.ledger.facts, Run(env, w, after).ledger.facts;
            && id in g.reports && g.reports[id] == f.reports[id]
            && id in g.analyses
            && (g.analyses[id] == f.analyses[id] || g.analyses[id].status == HUMAN_VERIFIED)
            && (f.analyses[id].status == HUMAN_VERIFIED ==> g.analyses[id].status == HUMAN_VERIFIED)
            && g.analyses[id].confidence == f.analyses[id].confidence
            && g.analyses[id].summary == f.analyses[id].summary
            && (id in f.chunks ==> id in g.chunks && g.chunks[id] == f.chunks[id])
  {
    hide Run;
    hide Possible;
    hide HandlersOk;
    hide OwnersOk;
    hide MessagesOk;
    hide PendingOk;
    hide RowsOk;
    hide HistoryOk;
    hide SentOk;
    RunOk(env, inbox, before);
    var w := Run(env, Initial(inbox), before);
    RunFollows(env, w, after);
    assert RowFollows(w.ledger.facts, Run(env, w, after).ledger.facts, id);
  }

  /** No message is received more than three times; deletion and the dead-letter queue are final. */
  lemma ReceivedAtMostThrice(env: Env, inbox: seq<seq<string>>, before: seq<Step>, after: seq<Step>, m: nat)
    requires Possible(env, Initial(inbox), before) && m < |inbox|
    requires Possible(env, Run(env, Initial(inbox), before), after)
    ensures var w := Run(env, Initial(inbox), before);
            var v := Run(env, w, after);
            && |w.messages| == |v.messages| == |inbox|
            && v.messages[m].received <= 3
            && (w.messages[m].place == DELETED ==> v.messages[m].place == DELETED)
            && (w.messages[m].place == DEAD ==> v.messages[m].place == DEAD && v.messages[m].received == 3)
  {
    hide Run;
    hide Possible;
    RunOk(env, inbox, before);
    RunMessages(env, inbox, before);
    var w := Run(env, Initial(inbox), before);
    RunFollows(env, w, after);
    RunKeeps(env, w, after);
    MessageFacts(env, w, Run(env, w, after), m);
  }

  lemma MessageFacts(env: Env, w: State, v: State, m: nat)
    requires MessagesOk(env, v) && Follows(w, v) && m < |w.messages|
    ensures |v.messages| == |w.messages| && v.messages[m].received <= 3
    ensures w.messages[m].place == DELETED ==> v.messages[m].place == DELETED
    ensures w.messages[m].place == DEAD ==> v.messages[m].place == DEAD && v.messages[m].received == 3
  {
    assert MessageOk(env, v.ledger, v.messages[m]);
    assert MessageFollows(w.messages[m], v.messages[m]);
  }
}
