/** What every step on monthly reports keeps. */
module DeskLaws {
  import opened Wrappers
  import opened Domain
  import opened Tables
  import opened Desk

  // ---------- invariants ----------

  /** The version before `v` exists, if there is one. */
  ghost predicate Below(rows: map<nat, Monthly>, property: nat, month: Month, v: nat) {
    v >= 1 && (v > 1 ==> HasVersion(rows, property, month, v - 1))
  }

  predicate SameSlot(a: Monthly, b: Monthly) {
    a.property == b.property && a.month == b.month && a.version == b.version
  }

  ghost predicate VersionsOk(rows: map<nat, Monthly>) {
    && (forall id :: id in rows ==> Below(rows, rows[id].property, rows[id].month, rows[id].version))
    && (forall a, b :: a in rows && b in rows && SameSlot(rows[a], rows[b]) ==> a == b)
  }

  ghost predicate SlotOk(w: State, slot: Slot) {
    && slot in w.open
    && Below(w.rows, slot.property, slot.month, slot.version)
    && !HasVersion(w.rows, slot.property, slot.month, slot.version)
    && var o := w.open[slot];
    && o.id <= w.lastId && o.id !in w.rows
    && o.owner < |w.creators| && w.creators[o.owner] == Creator(slot.property, slot.month, Opened(slot.version))
  }

  ghost predicate OpenOk(w: State) {
    && (forall slot :: slot in w.open ==> SlotOk(w, slot))
    && (forall s, t :: s in w.open && t in w.open && w.open[s].id == w.open[t].id ==> s == t)
    && (forall id :: id in w.rows ==> id <= w.lastId)
  }

  ghost predicate CreatorOk(w: State, c: nat) {
    c < |w.creators| &&
    match w.creators[c].stage
    case Chosen(v) => Below(w.rows, w.creators[c].property, w.creators[c].month, v)
    case Opened(v) => SlotOf(w, c) in w.open && w.open[SlotOf(w, c)].owner == c
    case _ => true
  }

  ghost predicate CreatorsOk(w: State) {
    forall c :: 0 <= c < |w.creators| ==> CreatorOk(w, c)
  }

  /** A pending generation job implies its row is still generating. */
  ghost predicate JobsOk(w: State) {
    forall id :: id in w.jobs ==> id in w.rows && w.rows[id].status == GENERATING
  }

  /** `failed` is never committed, and exactly the approved rows name an approver. */
  ghost predicate StatusOk(rows: map<nat, Monthly>) {
    forall id :: id in rows ==> rows[id].status != FAILED && (rows[id].status == APPROVED <==> rows[id].approval.Some?)
  }

  /** Approvals of a row in the log. */
  function Approvals(audit: seq<Audit>, id: nat): nat {
    if audit == [] then 0
    else
      var last := audit[|audit| - 1];
      Approvals(audit[..|audit| - 1], id) + if last.ApproveMonthly? && last.monthly == id then 1 else 0
  }

  predicate IsApproved(rows: map<nat, Monthly>, id: nat) {
    id in rows && rows[id].status == APPROVED
  }

  ghost predicate RecordOk(rows: map<nat, Monthly>, e: Audit) {
    e.ApproveMonthly? ==>
      && IsApproved(rows, e.monthly)
      && var row := rows[e.monthly];
      && row.approval.Some? && row.approval.value.user == e.user
      && row.property == e.property && row.month == e.month && row.version == e.version
  }

  ghost predicate Counted(rows: map<nat, Monthly>, audit: seq<Audit>, id: nat) {
    Approvals(audit, id) == if IsApproved(rows, id) then 1 else 0
  }

  ghost predicate AuditOk(rows: map<nat, Monthly>, audit: seq<Audit>) {
    && (forall id :: Counted(rows, audit, id))
    && (forall i :: 0 <= i < |audit| ==> RecordOk(rows, audit[i]))
  }

  ghost predicate Inv(w: State) {
    VersionsOk(w.rows) && OpenOk(w) && CreatorsOk(w) && JobsOk(w) && StatusOk(w.rows) && AuditOk(w.rows, w.audit)
  }

  lemma InitialOk()
    ensures Inv(INITIAL)
  {
    forall id: nat ensures Counted(INITIAL.rows, INITIAL.audit, id) {
    }
  }

  // ---------- versions ----------

  lemma VersionsHave(rows: map<nat, Monthly>, property: nat, month: Month, v: nat)
    ensures v in Versions(rows, property, month) <==> HasVersion(rows, property, month, v)
  {
  }

  /** Reading the maximum leads to a version right above an existing one. */
  lemma NextIsAbove(rows: map<nat, Monthly>, property: nat, month: Month)
    ensures Below(rows, property, month, NextVersion(rows, property, month))
  {
    var vs := Versions(rows, property, month);
    VersionsHave(rows, property, month, Max(vs));
  }

  lemma HasVersionAdd(rows: map<nat, Monthly>, id: nat, row: Monthly, property: nat, month: Month, v: nat)
    requires id !in rows
    ensures HasVersion(rows[id := row], property, month, v) <==>
            HasVersion(rows, property, month, v) || (Of(row, property, month) && row.version == v)
  {
    var more := rows[id := row];
    if HasVersion(rows, property, month, v) {
      var x :| x in rows && Of(rows[x], property, month) && rows[x].version == v;
      assert x in more && more[x] == rows[x];
    }
    if Of(row, property, month) && row.version == v {
      assert more[id] == row;
    }
  }

  lemma HasVersionEdit(rows: map<nat, Monthly>, id: nat, row: Monthly, property: nat, month: Month, v: nat)
    requires id in rows && SameSlot(rows[id], row)
    ensures HasVersion(rows[id := row], property, month, v) <==> HasVersion(rows, property, month, v)
  {
    var more := rows[id := row];
    forall x | x in rows ensures x in more && SameSlot(rows[x], more[x]) {
    }
    if HasVersion(rows, property, month, v) {
      var x :| x in rows && Of(rows[x], property, month) && rows[x].version == v;
      assert x in more && Of(more[x], property, month) && more[x].version == v;
    }
    if HasVersion(more, property, month, v) {
      var x :| x in more && Of(more[x], property, month) && more[x].version == v;
      assert x in rows && Of(rows[x], property, month) && rows[x].version == v;
    }
  }

  // ---------- editing one row ----------

  lemma EditVersions(rows: map<nat, Monthly>, id: nat, row: Monthly)
    requires VersionsOk(rows) && id in rows && SameSlot(rows[id], row)
    ensures VersionsOk(rows[id := row])
  {
    hide HasVersion;
    var more := rows[id := row];
    forall x | x in more ensures Below(more, more[x].property, more[x].month, more[x].version) {
      assert Below(rows, rows[x].property, rows[x].month, rows[x].version);
      if more[x].version > 1 {
        HasVersionEdit(rows, id, row, more[x].property, more[x].month, more[x].version - 1);
      }
    }
    forall a, b | a in more && b in more && SameSlot(more[a], more[b]) ensures a == b {
      assert SameSlot(rows[a], rows[b]);
    }
  }

  lemma EditBelow(rows: map<nat, Monthly>, id: nat, row: Monthly, property: nat, month: Month, v: nat)
    requires id in rows && SameSlot(rows[id], row) && Below(rows, property, month, v)
    ensures Below(rows[id := row], property, month, v)
  {
    if v > 1 {
      HasVersionEdit(rows, id, row, property, month, v - 1);
    }
  }

  lemma EditOpen(w: State, v: State, id: nat, row: Monthly)
    requires OpenOk(w) && CreatorsOk(w) && id in w.rows && SameSlot(w.rows[id], row)
    requires v.rows == w.rows[id := row] && v.open == w.open && v.creators == w.creators && v.lastId == w.lastId
    ensures OpenOk(v) && CreatorsOk(v)
  {
    hide Below;
    hide HasVersion;
    forall slot | slot in v.open ensures SlotOk(v, slot) {
      assert SlotOk(w, slot);
      HasVersionEdit(w.rows, id, row, slot.property, slot.month, slot.version);
      EditBelow(w.rows, id, row, slot.property, slot.month, slot.version);
    }
    forall c | 0 <= c < |v.creators| ensures CreatorOk(v, c) {
      assert CreatorOk(w, c);
      if v.creators[c].stage.Chosen? {
        EditBelow(w.rows, id, row, v.creators[c].property, v.creators[c].month, v.creators[c].stage.version);
      }
    }
  }

  // ---------- the log ----------

  lemma ApprovalsAppend(audit: seq<Audit>, e: Audit, id: nat)
    ensures Approvals(audit + [e], id) == Approvals(audit, id) + if e.ApproveMonthly? && e.monthly == id then 1 else 0
  {
    assert (audit + [e])[..|audit|] == audit;
  }

  lemma LogOther(rows: map<nat, Monthly>, audit: seq<Audit>, e: Audit)
    requires AuditOk(rows, audit) && !e.ApproveMonthly?
    ensures AuditOk(rows, audit + [e])
  {
    hide RecordOk;
    forall id ensures Counted(rows, audit + [e], id) {
      assert Counted(rows, audit, id);
      ApprovalsAppend(audit, e, id);
    }
    forall i | 0 <= i < |audit + [e]| ensures RecordOk(rows, (audit + [e])[i]) {
      assert i < |audit| ==> RecordOk(rows, audit[i]);
      OtherRecordOk(rows, e);
    }
  }

  lemma OtherRecordOk(rows: map<nat, Monthly>, e: Audit)
    requires !e.ApproveMonthly?
    ensures RecordOk(rows, e)
  {
  }

  /** Rows that are not approved may change without touching the log. */
  lemma EditAudit(rows: map<nat, Monthly>, audit: seq<Audit>, id: nat, row: Monthly)
    requires AuditOk(rows, audit) && !IsApproved(rows, id) && row.status != APPROVED
    ensures AuditOk(rows[id := row], audit)
  {
    var more := rows[id := row];
    forall x ensures Counted(more, audit, x) {
      assert Counted(rows, audit, x);
    }
    forall i | 0 <= i < |audit| ensures RecordOk(more, audit[i]) {
      assert RecordOk(rows, audit[i]);
    }
  }

  lemma ApproveAudit(rows: map<nat, Monthly>, audit: seq<Audit>, id: nat, user: nat, at: Instant)
    requires AuditOk(rows, audit) && id in rows && rows[id].status != APPROVED
    ensures var row := rows[id].(status := APPROVED, approval := Some(Approval(user, at)));
            AuditOk(rows[id := row], audit + [ApproveMonthly(user, id, row.property, row.month, row.version)])
  {
    var row := rows[id].(status := APPROVED, approval := Some(Approval(user, at)));
    var e := ApproveMonthly(user, id, row.property, row.month, row.version);
    var more := rows[id := row];
    forall x ensures Counted(more, audit + [e], x) {
      assert Counted(rows, audit, x);
      ApprovalsAppend(audit, e, x);
    }
    forall i | 0 <= i < |audit + [e]| ensures RecordOk(more, (audit + [e])[i]) {
      if i < |audit| {
        assert RecordOk(rows, audit[i]);
      }
    }
  }
}
