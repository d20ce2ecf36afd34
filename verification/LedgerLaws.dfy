/** What every change of the ledger keeps. */
module LedgerLaws {
  import opened Domain
  import opened Tables
  import opened Pipeline

  /** The committed rows and the history tell the same story, so no source key is stored twice. */
  ghost predicate HistoryOk(l: Ledger) {
    && (forall id :: id in l.facts.reports ==>
          l.facts.reports[id].sourceKey in l.history && l.history[l.facts.reports[id].sourceKey].id == id)
    && (forall k :: k in l.history ==>
          l.history[k].id in l.facts.reports && l.facts.reports[l.history[k].id].sourceKey == k)
  }

  /** Report, analysis and chunks come together. */
  ghost predicate TablesOk(l: Ledger) {
    && l.facts.analyses.Keys == l.facts.reports.Keys && l.facts.chunks.Keys == l.facts.reports.Keys
    && forall id :: id in l.facts.reports ==> id <= l.lastId
  }

  ghost predicate FromObject(env: Env, draft: Draft) {
    exists o, c: Classification :: o in env.objects && InRange(c) && draft == DraftFor(env, env.objects[o], c)
  }

  /** A row is what was committed, except for the labels once a user has overridden them. */
  ghost predicate RowOk(env: Env, l: Ledger, id: nat) {
    && id in l.facts.reports && id in l.facts.analyses && id in l.facts.chunks
    && var report, now := l.facts.reports[id], l.facts.analyses[id];
    && report.sourceKey in l.history
    && var committed := l.history[report.sourceKey].analysis;
    && FromObject(env, Draft(report, committed, l.facts.chunks[id]))
    && (now == AsStored(committed) || now == Relabelled(AsStored(committed), now.labels))
  }

  ghost predicate RowsOk(env: Env, l: Ledger) {
    forall id :: id in l.facts.reports ==> RowOk(env, l, id)
  }

  ghost predicate PendingRowOk(env: Env, l: Ledger, k: string) {
    && k in l.pending && k !in l.history
    && var p := l.pending[k];
    && p.draft.report.sourceKey == k
    && p.id <= l.lastId && p.id !in l.facts.reports
    && FromObject(env, p.draft)
  }

  ghost predicate PendingOk(env: Env, l: Ledger) {
    forall k :: k in l.pending ==> PendingRowOk(env, l, k)
  }

  ghost predicate IdsOk(l: Ledger) {
    forall k, m :: k in l.pending && m in l.pending && l.pending[k].id == l.pending[m].id ==> k == m
  }

  /** 1 if what was committed under the key is urgent. */
  function Owed(l: Ledger, k: string): nat {
    if k in l.history && l.history[k].analysis.labels.urgency == HIGH then 1 else 0
  }

  /** 1 if a notification went out whose transaction is still open. */
  function InDoubt(l: Ledger, k: string): nat {
    if k in l.pending && l.pending[k].notified then 1 else 0
  }

  ghost predicate Balanced(l: Ledger, k: string) {
    l.sent[k] == Owed(l, k) + InDoubt(l, k) + l.wasted[k]
  }

  ghost predicate SentOk(l: Ledger) {
    forall k :: Balanced(l, k)
  }

  ghost predicate LedgerOk(env: Env, l: Ledger) {
    HistoryOk(l) && TablesOk(l) && RowsOk(env, l) && PendingOk(env, l) && IdsOk(l) && SentOk(l)
  }

  lemma KeyIsHistory(l: Ledger, k: string)
    requires HistoryOk(l)
    ensures HasKey(l.facts, k) <==> k in l.history
  {
  }

  // ---------- skipping an id ----------

  lemma BumpKeeps(env: Env, l: Ledger)
    requires LedgerOk(env, l)
    ensures LedgerOk(env, l.(lastId := l.lastId + 1))
  {
    hide FromObject;
    var v := l.(lastId := l.lastId + 1);
    forall k ensures Balanced(v, k) { assert Balanced(l, k); }
    forall k | k in v.pending ensures PendingRowOk(env, v, k) { assert PendingRowOk(env, l, k); }
    forall id | id in v.facts.reports ensures RowOk(env, v, id) { assert RowOk(env, l, id); }
  }

  // ---------- opening a row ----------

  lemma OpenKeepsIds(env: Env, l: Ledger, key: string, owner: nat, draft: Draft)
    requires PendingOk(env, l) && IdsOk(l)
    ensures IdsOk(Open(l, key, owner, draft))
  {
    hide FromObject;
    assert forall k :: k in l.pending ==> PendingRowOk(env, l, k);
  }

  lemma OpenKeeps(env: Env, l: Ledger, key: string, owner: nat, draft: Draft)
    requires LedgerOk(env, l) && key !in l.pending && !HasKey(l.facts, key)
    requires draft.report.sourceKey == key && FromObject(env, draft)
    ensures LedgerOk(env, Open(l, key, owner, draft))
  {
    hide FromObject;
    hide RowOk;
    hide IdsOk;
    var v := Open(l, key, owner, draft);
    KeyIsHistory(l, key);
    forall k ensures Balanced(v, k) { assert Balanced(l, k); }
    forall k | k in v.pending ensures PendingRowOk(env, v, k) { assert k in l.pending ==> PendingRowOk(env, l, k); }
    OpenKeepsIds(env, l, key, owner, draft);
    forall id | id in v.facts.reports ensures RowOk(env, v, id) { RowSame(env, l, v, id); }
  }

  /** A row depends on the tables and the history alone. */
  lemma RowSame(env: Env, l: Ledger, v: Ledger, id: nat)
    requires RowOk(env, l, id) && v.facts == l.facts && v.history == l.history
    ensures RowOk(env, v, id)
  {
    hide FromObject;
  }

  // ---------- notifying ----------

  lemma MarkKeeps(env: Env, l: Ledger, key: string)
    requires LedgerOk(env, l) && key in l.pending && !l.pending[key].notified
    ensures LedgerOk(env, Mark(l, key))
  {
    hide FromObject;
    hide RowOk;
    var v := Mark(l, key);
    forall k ensures Balanced(v, k) { assert Balanced(l, k); }
    forall k | k in v.pending ensures PendingRowOk(env, v, k) { assert PendingRowOk(env, l, k); }
    forall id | id in v.facts.reports ensures RowOk(env, v, id) { RowSame(env, l, v, id); }
  }

  // ---------- committing ----------

  lemma PublishKeepsHistory(env: Env, l: Ledger, key: string)
    requires LedgerOk(env, l) && key in l.pending
    ensures HistoryOk(Publish(l, key)) && TablesOk(Publish(l, key))
  {
    hide FromObject;
    hide RowsOk;
    hide SentOk;
    assert PendingRowOk(env, l, key);
  }

  lemma PublishKeepsPending(env: Env, l: Ledger, key: string)
    requires LedgerOk(env, l) && key in l.pending
    ensures PendingOk(env, Publish(l, key)) && IdsOk(Publish(l, key))
  {
    hide FromObject;
    hide RowsOk;
    hide SentOk;
    var v := Publish(l, key);
    forall k | k in v.pending ensures PendingRowOk(env, v, k) { assert PendingRowOk(env, l, k); }
  }

  lemma PublishKeepsRows(env: Env, l: Ledger, key: string)
    requires LedgerOk(env, l) && key in l.pending
    ensures RowsOk(env, Publish(l, key))
  {
    hide FromObject;
    hide SentOk;
    hide IdsOk;
    var v := Publish(l, key);
    var p := l.pending[key];
    assert PendingRowOk(env, l, key);
    assert Draft(p.draft.report, p.draft.analysis, p.draft.chunks) == p.draft;
    forall id | id in v.facts.reports ensures RowOk(env, v, id) {
      assert id != p.id ==> RowOk(env, l, id);
    }
  }

  lemma PublishBalances(l: Ledger, key: string)
    requires SentOk(l) && key in l.pending && key !in l.history
    requires IsHigh(l.pending[key].draft) <==> l.pending[key].notified
    ensures SentOk(Publish(l, key))
  {
    forall k ensures Balanced(Publish(l, key), k) { assert Balanced(l, k); }
  }

  /** An urgent row is committed only after its notification. */
  lemma PublishKeeps(env: Env, l: Ledger, key: string)
    requires LedgerOk(env, l) && key in l.pending && (IsHigh(l.pending[key].draft) <==> l.pending[key].notified)
    ensures LedgerOk(env, Publish(l, key))
  {
    PublishKeepsHistory(env, l, key);
    PublishKeepsPending(env, l, key);
    PublishKeepsRows(env, l, key);
    assert PendingRowOk(env, l, key);
    hide RowsOk;
    hide PendingOk;
    hide HistoryOk;
    hide TablesOk;
    hide IdsOk;
    hide FromObject;
    hide Publish;
    PublishBalances(l, key);
  }

  // ---------- rolling back ----------

  lemma DropKeeps(env: Env, l: Ledger, key: string, delivered: bool)
    requires LedgerOk(env, l) && key in l.pending && (delivered ==> !l.pending[key].notified)
    ensures LedgerOk(env, Drop(l, key, delivered))
  {
    hide FromObject;
    hide RowOk;
    var v := Drop(l, key, delivered);
    forall k ensures Balanced(v, k) { assert Balanced(l, k); }
    forall k | k in v.pending ensures PendingRowOk(env, v, k) { assert PendingRowOk(env, l, k); }
    forall id | id in v.facts.reports ensures RowOk(env, v, id) { RowSame(env, l, v, id); }
  }

  // ---------- overriding ----------

  lemma RowRelabelled(env: Env, l: Ledger, report: nat, labels: Labels, id: nat)
    requires RowOk(env, l, id) && report in l.facts.analyses
    ensures RowOk(env, Relabel(l, report, labels), id)
  {
    hide FromObject;
    hide AsStored;
  }

  lemma RelabelKeeps(env: Env, l: Ledger, report: nat, labels: Labels)
    requires LedgerOk(env, l) && report in l.facts.analyses
    ensures LedgerOk(env, Relabel(l, report, labels))
  {
    hide FromObject;
    hide RowOk;
    var v := Relabel(l, report, labels);
    forall k ensures Balanced(v, k) { assert Balanced(l, k); }
    forall k | k in v.pending ensures PendingRowOk(env, v, k) { assert PendingRowOk(env, l, k); }
    forall id | id in v.facts.reports ensures RowOk(env, v, id) { RowRelabelled(env, l, report, labels, id); }
  }
}
