/** Safety of whole runs on monthly reports. */
module DeskRuns {
  import opened Wrappers
  import opened Domain
  import opened Tables
  import opened Desk
  import opened DeskLaws

  // ---------- creating a version ----------

  lemma RequestKeeps(w: State, property: nat, month: Month)
    requires Inv(w)
    ensures Inv(w.(creators := w.creators + [Creator(property, month, Reading)]))
  {
    hide VersionsOk;
    hide AuditOk;
    hide StatusOk;
    hide Below;
    hide HasVersion;
    var v := w.(creators := w.creators + [Creator(property, month, Reading)]);
    forall slot | slot in v.open ensures SlotOk(v, slot) { assert SlotOk(w, slot); }
    forall c | 0 <= c < |v.creators| ensures CreatorOk(v, c) { assert c < |w.creators| ==> CreatorOk(w, c); }
  }

  /** A creator without an open row changes its stage. */
  lemma CreatorMoved(w: State, c: nat, stage: Stage)
    requires Inv(w) && c < |w.creators| && !w.creators[c].stage.Opened? && !stage.Opened?
    requires stage.Chosen? ==> Below(w.rows, w.creators[c].property, w.creators[c].month, stage.version)
    ensures Inv(SetStage(w, c, stage))
  {
    hide VersionsOk;
    hide AuditOk;
    hide StatusOk;
    hide Below;
    hide HasVersion;
    var v := SetStage(w, c, stage);
    forall slot | slot in v.open ensures SlotOk(v, slot) { assert SlotOk(w, slot); }
    forall d | 0 <= d < |v.creators| ensures CreatorOk(v, d) { assert CreatorOk(w, d); }
  }

  lemma Skip(w: State)
    requires Inv(w)
    ensures Inv(w.(lastId := w.lastId + 1))
  {
    hide VersionsOk;
    hide AuditOk;
    hide StatusOk;
    hide Below;
    hide HasVersion;
    var v := w.(lastId := w.lastId + 1);
    forall slot | slot in v.open ensures SlotOk(v, slot) { assert SlotOk(w, slot); }
    forall d | 0 <= d < |v.creators| ensures CreatorOk(v, d) { assert CreatorOk(w, d); }
  }

  lemma OpenKeeps(w: State, c: nat)
    requires Inv(w) && Enabled(w, InsertVersion(c))
    requires var slot := SlotOf(w, c); !HasVersion(w.rows, slot.property, slot.month, slot.version)
    ensures Inv(SlotInserted(w, c))
  {
    hide VersionsOk;
    hide AuditOk;
    hide StatusOk;
    hide Below;
    hide HasVersion;
    var v := SlotInserted(w, c);
    assert CreatorOk(w, c);
    forall slot | slot in v.open ensures SlotOk(v, slot) { assert slot in w.open ==> SlotOk(w, slot); }
    forall d | 0 <= d < |v.creators| ensures CreatorOk(v, d) { assert CreatorOk(w, d); }
    OpenIds(w, v, SlotOf(w, c), c);
  }

  lemma OpenIds(w: State, v: State, slot: Slot, c: nat)
    requires OpenOk(w) && v.rows == w.rows && v.lastId == w.lastId + 1
    requires v.open == w.open[slot := OpenRow(c, w.lastId + 1)] && slot !in w.open
    ensures forall s, t :: s in v.open && t in v.open && v.open[s].id == v.open[t].id ==> s == t
    ensures forall id :: id in v.rows ==> id <= v.lastId
  {
    hide Below;
    hide HasVersion;
    forall s | s in w.open ensures w.open[s].id <= w.lastId { assert SlotOk(w, s); }
  }

  lemma InsertKeeps(w: State, c: nat)
    requires Inv(w) && Enabled(w, InsertVersion(c))
    ensures Inv(Next(w, InsertVersion(c)))
  {
    hide Inv;
    var slot := SlotOf(w, c);
    if HasVersion(w.rows, slot.property, slot.month, slot.version) {
      Skip(w);
      CreatorMoved(w.(lastId := w.lastId + 1), c, Closed);
    } else {
      OpenKeeps(w, c);
    }
  }

  /** The transaction of a slot ends. */
  lemma SlotClosed(w: State, c: nat)
    requires OpenOk(w) && CreatorsOk(w) && c < |w.creators| && w.creators[c].stage.Opened?
    ensures SlotOf(w, c) in w.open
    ensures OpenOk(Aborted(w, c)) && CreatorsOk(Aborted(w, c))
  {
    hide Below;
    hide HasVersion;
    assert CreatorOk(w, c);
    var v := Aborted(w, c);
    forall slot | slot in v.open ensures SlotOk(v, slot) { assert SlotOk(w, slot); }
    forall d | 0 <= d < |v.creators| ensures CreatorOk(v, d) { assert CreatorOk(w, d); }
  }

  lemma AbortKeeps(w: State, c: nat)
    requires Inv(w) && Enabled(w, Abort(c))
    ensures Inv(Next(w, Abort(c)))
  {
    if w.creators[c].stage.Opened? {
      SlotClosed(w, c);
    } else {
      hide Inv;
      CreatorMoved(w, c, Closed);
    }
  }

  lemma AddVersions(rows: map<nat, Monthly>, id: nat, slot: Slot)
    requires VersionsOk(rows) && id !in rows
    requires Below(rows, slot.property, slot.month, slot.version)
    requires !HasVersion(rows, slot.property, slot.month, slot.version)
    ensures VersionsOk(rows[id := Fresh(slot.property, slot.month, slot.version)])
  {
    var row := Fresh(slot.property, slot.month, slot.version);
    var more := rows[id := row];
    forall x | x in more ensures Below(more, more[x].property, more[x].month, more[x].version) {
      assert x in rows ==> Below(rows, rows[x].property, rows[x].month, rows[x].version);
      BelowAdd(rows, id, row, more[x].property, more[x].month, more[x].version);
    }
    forall a, b | a in more && b in more && SameSlot(more[a], more[b]) ensures a == b {
      assert a in rows && b in rows ==> SameSlot(rows[a], rows[b]);
    }
  }

  lemma BelowAdd(rows: map<nat, Monthly>, id: nat, row: Monthly, property: nat, month: Month, v: nat)
    requires id !in rows && Below(rows, property, month, v)
    ensures Below(rows[id := row], property, month, v)
  {
    hide HasVersion;
    if v > 1 {
      HasVersionAdd(rows, id, row, property, month, v - 1);
    }
  }

  /** A slot stays as it is when another slot's row is committed. */
  lemma AddSlot(w: State, v: State, id: nat, done: Slot, slot: Slot)
    requires SlotOk(w, slot) && slot != done && w.open[slot].id != id && id !in w.rows
    requires v.rows == w.rows[id := Fresh(done.property, done.month, done.version)]
    requires slot in v.open && v.open[slot] == w.open[slot] && v.lastId == w.lastId && v.creators == w.creators
    ensures SlotOk(v, slot)
  {
    hide HasVersion;
    var row := Fresh(done.property, done.month, done.version);
    HasVersionAdd(w.rows, id, row, slot.property, slot.month, slot.version);
    BelowAdd(w.rows, id, row, slot.property, slot.month, slot.version);
  }

  lemma AddOpen(w: State, v: State, id: nat, done: Slot)
    requires OpenOk(w) && CreatorsOk(w) && id !in w.rows && id <= w.lastId && done !in w.open
    requires forall slot :: slot in w.open ==> w.open[slot].id != id
    requires v.rows == w.rows[id := Fresh(done.property, done.month, done.version)]
    requires v.open == w.open && v.lastId == w.lastId && v.creators == w.creators
    ensures OpenOk(v) && CreatorsOk(v)
  {
    hide SlotOk;
    hide HasVersion;
    hide Below;
    forall slot | slot in v.open ensures SlotOk(v, slot) {
      AddSlot(w, v, id, done, slot);
    }
    forall c | 0 <= c < |v.creators| ensures CreatorOk(v, c) {
      assert CreatorOk(w, c);
      if v.creators[c].stage.Chosen? {
        BelowAdd(w.rows, id, Fresh(done.property, done.month, done.version), v.creators[c].property,
                 v.creators[c].month, v.creators[c].stage.version);
      }
    }
  }

  lemma AddAudit(rows: map<nat, Monthly>, audit: seq<Audit>, id: nat, row: Monthly)
    requires AuditOk(rows, audit) && StatusOk(rows) && id !in rows && row.status == GENERATING && row.approval.None?
    ensures AuditOk(rows[id := row], audit) && StatusOk(rows[id := row])
  {
    EditAudit(rows, audit, id, row);
  }

  lemma CommitKeeps(w: State, c: nat, scheduled: bool)
    requires Inv(w) && Enabled(w, CommitVersion(c, scheduled))
    ensures Inv(Next(w, CommitVersion(c, scheduled)))
  {
    var slot := SlotOf(w, c);
    var id := w.open[slot].id;
    var u := Aborted(w, c);
    var v := Committed(w, c, scheduled);
    assert SlotOk(w, slot);
    SlotClosed(w, c);
    AddVersions(w.rows, id, slot);
    AddAudit(w.rows, w.audit, id, Fresh(slot.property, slot.month, slot.version));
    hide VersionsOk;
    hide AuditOk;
    hide StatusOk;
    hide CreatorsOk;
    hide SlotOk;
    AddOpen(u, v, id, slot);
  }

  // ---------- editing a row ----------

  lemma RowEdited(w: State, v: State, id: nat, row: Monthly)
    requires Inv(w) && id in w.rows && SameSlot(w.rows[id], row)
    requires v == w.(rows := w.rows[id := row], audit := v.audit, jobs := v.jobs)
    requires AuditOk(v.rows, v.audit) && JobsOk(v)
    requires row.status != FAILED && (row.status == APPROVED <==> row.approval.Some?)
    ensures Inv(v)
  {
    hide AuditOk;
    hide JobsOk;
    EditVersions(w.rows, id, row);
    EditOpen(w, v, id, row);
    hide VersionsOk;
    hide OpenOk;
    hide CreatorsOk;
  }

  lemma JobDone(w: State, id: nat)
    requires Inv(w)
    ensures Inv(w.(jobs := w.jobs - {id}))
  {
    hide VersionsOk;
    hide AuditOk;
    hide StatusOk;
    hide Below;
    hide HasVersion;
    var v := w.(jobs := w.jobs - {id});
    forall slot | slot in v.open ensures SlotOk(v, slot) { assert SlotOk(w, slot); }
    forall d | 0 <= d < |v.creators| ensures CreatorOk(v, d) { assert CreatorOk(w, d); }
  }

  lemma GenerateKeeps(w: State, id: nat, attempt: Result<string, Error>)
    requires Inv(w) && Enabled(w, Generate(id, attempt))
    ensures Inv(Next(w, Generate(id, attempt)))
  {
    JobDone(w, id);
    if attempt.Ok? {
      var u := w.(jobs := w.jobs - {id});
      var row := w.rows[id].(body := attempt.value, status := DRAFT);
      EditAudit(w.rows, w.audit, id, row);
      hide VersionsOk;
      hide OpenOk;
      hide CreatorsOk;
      hide AuditOk;
      RowEdited(u, u.(rows := w.rows[id := row]), id, row);
    }
  }

  lemma SaveKeeps(w: State, caller: Caller, id: nat, body: string)
    requires Inv(w)
    ensures Inv(Settled(w, Saved(View(w), caller, id, body)))
  {
    hide VersionsOk;
    hide OpenOk;
    hide CreatorsOk;
    if Editable(w.rows, caller, id).Ok? {
      var row := w.rows[id].(body := body);
      EditAudit(w.rows, w.audit, id, row);
      hide AuditOk;
      RowEdited(w, w.(rows := w.rows[id := row]), id, row);
    }
  }

  lemma ApproveKeeps(w: State, caller: Caller, id: nat, at: Instant)
    requires Inv(w)
    ensures Inv(Settled(w, Approved(View(w), caller, id, at)))
  {
    hide VersionsOk;
    hide OpenOk;
    hide CreatorsOk;
    if Editable(w.rows, caller, id).Ok? {
      var row := w.rows[id].(status := APPROVED, approval := Some(Approval(caller.id, at)));
      ApproveAudit(w.rows, w.audit, id, caller.id, at);
      hide AuditOk;
      var v := Settled(w, Approved(View(w), caller, id, at));
      RowEdited(w, v, id, row);
    }
  }

  lemma SaveAndApproveKeeps(w: State, caller: Caller, id: nat, body: string, at: Instant)
    requires Inv(w)
    ensures Inv(Settled(w, SavedAndApproved(View(w), caller, id, body, at)))
  {
    hide Inv;
    SaveKeeps(w, caller, id, body);
    if Saved(View(w), caller, id, body).Ok? {
      var u := Settled(w, Saved(View(w), caller, id, body));
      ApproveKeeps(u, caller, id, at);
    }
  }

  lemma LogKeeps(w: State, entry: Audit)
    requires Inv(w) && !entry.ApproveMonthly?
    ensures Inv(w.(audit := w.audit + [entry]))
  {
    LogOther(w.rows, w.audit, entry);
    hide VersionsOk;
    hide AuditOk;
    hide StatusOk;
    hide Below;
    hide HasVersion;
    var v := w.(audit := w.audit + [entry]);
    forall slot | slot in v.open ensures SlotOk(v, slot) { assert SlotOk(w, slot); }
    forall d | 0 <= d < |v.creators| ensures CreatorOk(v, d) { assert CreatorOk(w, d); }
  }

  lemma StepKeeps(w: State, s: Step)
    requires Inv(w) && Enabled(w, s)
    ensures Inv(Next(w, s))
  {
    hide Inv;
    match s
    case Request(_, property, month) => RequestKeeps(w, property, month);
    case ReadMax(c) =>
      NextIsAbove(w.rows, w.creators[c].property, w.creators[c].month);
      CreatorMoved(w, c, Chosen(NextVersion(w.rows, w.creators[c].property, w.creators[c].month)));
    case InsertVersion(c) => InsertKeeps(w, c);
    case CommitVersion(c, scheduled) => CommitKeeps(w, c, scheduled);
    case Abort(c) => AbortKeeps(w, c);
    case Generate(id, attempt) => GenerateKeeps(w, id, attempt);
    case Save(caller, id, body) => SaveKeeps(w, caller, id, body);
    case Approve(caller, id, at) => ApproveKeeps(w, caller, id, at);
    case SaveAndApprove(caller, id, body, at) => SaveAndApproveKeeps(w, caller, id, body, at);
    case Log(entry) => LogKeeps(w, entry);
  }

  lemma {:induction false} RunKeeps(w: State, steps: seq<Step>)
    requires Inv(w) && Possible(w, steps)
    ensures Inv(Run(w, steps))
    decreases |steps|
  {
    hide Inv;
    hide Enabled;
    hide Next;
    if steps != [] {
      StepKeeps(w, steps[0]);
      RunKeeps(Next(w, steps[0]), steps[1..]);
    }
  }

  lemma RunOk(steps: seq<Step>)
    requires Possible(INITIAL, steps)
    ensures Inv(Run(INITIAL, steps))
  {
    hide Inv;
    hide Run;
    hide Possible;
    InitialOk();
    RunKeeps(INITIAL, steps);
  }

  // ---------- versions are exactly 1..n ----------

  lemma {:induction false} VersionsBelow(rows: map<nat, Monthly>, property: nat, month: Month, v: nat, low: nat)
    requires VersionsOk(rows) && HasVersion(rows, property, month, v) && 1 <= low <= v
    ensures HasVersion(rows, property, month, low)
    decreases v
  {
    if low < v {
      BelowHas(rows, property, month, v);
      VersionsBelow(rows, property, month, v - 1, low);
    }
  }

  lemma BelowHas(rows: map<nat, Monthly>, property: nat, month: Month, v: nat)
    requires VersionsOk(rows) && HasVersion(rows, property, month, v)
    ensures v >= 1 && (v > 1 ==> HasVersion(rows, property, month, v - 1))
  {
    var id :| id in rows && Of(rows[id], property, month) && rows[id].version == v;
    assert Below(rows, rows[id].property, rows[id].month, rows[id].version);
  }

  function RowsOf(rows: map<nat, Monthly>, property: nat, month: Month): set<nat> {
    set id | id in rows && Of(rows[id], property, month)
  }

  /** The same up to a version. */
  function UpTo(rows: map<nat, Monthly>, property: nat, month: Month, v: nat): set<nat> {
    set id | id in rows && Of(rows[id], property, month) && rows[id].version <= v
  }

  lemma {:induction false} UpToCount(rows: map<nat, Monthly>, property: nat, month: Month, v: nat, n: nat)
    requires VersionsOk(rows) && v <= n && (n > 0 ==> HasVersion(rows, property, month, n))
    ensures |UpTo(rows, property, month, v)| == v
    decreases v
  {
    hide Below;
    if v == 0 {
      forall id | id in rows ensures id !in UpTo(rows, property, month, 0) {
        VersionPositive(rows, id);
      }
      assert UpTo(rows, property, month, 0) == {};
    } else {
      UpToCount(rows, property, month, v - 1, n);
      VersionsBelow(rows, property, month, n, v);
      var id :| id in rows && Of(rows[id], property, month) && rows[id].version == v;
      assert UpTo(rows, property, month, v) == UpTo(rows, property, month, v - 1) + {id} by {
        forall x | x in rows && Of(rows[x], property, month) && rows[x].version == v ensures x == id {
          assert SameSlot(rows[x], rows[id]);
        }
      }
    }
  }

  lemma VersionPositive(rows: map<nat, Monthly>, id: nat)
    requires VersionsOk(rows) && id in rows
    ensures rows[id].version >= 1
  {
    assert Below(rows, rows[id].property, rows[id].month, rows[id].version);
  }

  /**
    However creators race, retry and roll back: the committed versions of a property and month are
    exactly 1..n, each held by one row.
   */
  lemma VersionsHaveNoGaps(steps: seq<Step>, property: nat, month: Month)
    requires Possible(INITIAL, steps)
    ensures var rows := Run(INITIAL, steps).rows;
            var n := Max(Versions(rows, property, month));
            && (forall v :: v in Versions(rows, property, month) <==> 1 <= v <= n)
            && |RowsOf(rows, property, month)| == n
  {
    hide Run;
    hide Possible;
    hide OpenOk;
    hide CreatorsOk;
    hide JobsOk;
    hide StatusOk;
    hide AuditOk;
    hide HasVersion;
    RunOk(steps);
    var rows := Run(INITIAL, steps).rows;
    hide VersionsOk;
    var n := Max(Versions(rows, property, month));
    VersionsHave(rows, property, month, n);
    forall v ensures v in Versions(rows, property, month) <==> 1 <= v <= n {
      VersionsHave(rows, property, month, v);
      if HasVersion(rows, property, month, v) {
        BelowHas(rows, property, month, v);
      }
      if 1 <= v <= n {
        VersionsBelow(rows, property, month, n, v);
      }
    }
    UpToCount(rows, property, month, n, n);
    assert RowsOf(rows, property, month) == UpTo(rows, property, month, n) by {
      forall id | id in rows && Of(rows[id], property, month) ensures rows[id].version <= n {
        assert rows[id].version in Versions(rows, property, month);
      }
    }
  }

  // ---------- approved rows are final ----------

  function Rank(status: MonthlyStatus): nat {
    match status
    case GENERATING => 0
    case DRAFT => 1
    case APPROVED => 2
    case FAILED => 3
  }

  /** What may happen to a row: generating, then draft, then approved, then nothing. */
  predicate RowMoves(a: Monthly, b: Monthly) {
    && SameSlot(a, b)
    && Rank(a.status) <= Rank(b.status)
    && (a.status == APPROVED || b.status == GENERATING ==> b == a)
  }

  ghost predicate Follows(w: State, v: State) {
    && (forall id :: id in w.rows ==> id in v.rows && RowMoves(w.rows[id], v.rows[id]))
    && w.audit <= v.audit
  }

  lemma FollowsTransitive(u: State, w: State, v: State)
    requires Follows(u, w) && Follows(w, v)
    ensures Follows(u, v)
  {
    forall id | id in u.rows ensures id in v.rows && RowMoves(u.rows[id], v.rows[id]) {
      assert RowMoves(u.rows[id], w.rows[id]) && RowMoves(w.rows[id], v.rows[id]);
    }
  }

  lemma SaveFollows(w: State, caller: Caller, id: nat, body: string)
    ensures Follows(w, Settled(w, Saved(View(w), caller, id, body)))
  {
  }

  lemma ApproveFollows(w: State, caller: Caller, id: nat, at: Instant)
    ensures Follows(w, Settled(w, Approved(View(w), caller, id, at)))
  {
  }

  lemma SaveAndApproveFollows(w: State, caller: Caller, id: nat, body: string, at: Instant)
    ensures Follows(w, Settled(w, SavedAndApproved(View(w), caller, id, body, at)))
  {
    hide Follows;
    match Saved(View(w), caller, id, body)
    case Err(_) => FollowsSelf(w);
    case Ok(_) =>
      var u := Settled(w, Saved(View(w), caller, id, body));
      SaveFollows(w, caller, id, body);
      ApproveFollows(u, caller, id, at);
      FollowsTransitive(w, u, Settled(u, Approved(View(u), caller, id, at)));
      FollowsSelf(w);
  }

  lemma CommitFollows(w: State, c: nat, scheduled: bool)
    requires OpenOk(w) && Enabled(w, CommitVersion(c, scheduled))
    ensures Follows(w, Committed(w, c, scheduled))
  {
    assert SlotOk(w, SlotOf(w, c));
  }

  lemma GenerateFollows(w: State, id: nat, attempt: Result<string, Error>)
    requires JobsOk(w) && Enabled(w, Generate(id, attempt))
    ensures Follows(w, Next(w, Generate(id, attempt)))
  {
  }

  lemma StepFollows(w: State, s: Step)
    requires Inv(w) && Enabled(w, s)
    ensures Follows(w, Next(w, s))
  {
    hide VersionsOk;
    hide AuditOk;
    hide CreatorsOk;
    hide OpenOk;
    hide JobsOk;
    hide StatusOk;
    match s {
      case CommitVersion(c, scheduled) => CommitFollows(w, c, scheduled);
      case Generate(id, attempt) => GenerateFollows(w, id, attempt);
      case Save(caller, id, body) => SaveFollows(w, caller, id, body);
      case Approve(caller, id, at) => ApproveFollows(w, caller, id, at);
      case SaveAndApprove(caller, id, body, at) => SaveAndApproveFollows(w, caller, id, body, at);
      case _ =>
    }
  }

  lemma {:induction false} RunFollows(w: State, steps: seq<Step>)
    requires Inv(w) && Possible(w, steps)
    ensures Follows(w, Run(w, steps))
    decreases |steps|
  {
    hide Inv;
    hide Enabled;
    hide Next;
    hide Follows;
    if steps == [] {
      FollowsSelf(w);
    } else {
      var v := Next(w, steps[0]);
      StepKeeps(w, steps[0]);
      StepFollows(w, steps[0]);
      RunFollows(v, steps[1..]);
      FollowsTransitive(w, v, Run(v, steps[1..]));
    }
  }

  lemma FollowsSelf(w: State)
    ensures Follows(w, w)
  {
  }

  /**
    An approved report never changes again, statuses only move generating, draft, approved, no
    committed row is ever `failed`, and the log only grows.
   */
  lemma ApprovedIsFinal(before: seq<Step>, after: seq<Step>, id: nat)
    requires Possible(INITIAL, before) && Possible(Run(INITIAL, before), after)
    requires id in Run(INITIAL, before).rows
    ensures var w := Run(INITIAL, before);
            var v := Run(w, after);
            && id in v.rows
            && (w.rows[id].status == APPROVED ==> v.rows[id] == w.rows[id])
            && Rank(w.rows[id].status) <= Rank(v.rows[id].status)
            && w.rows[id].status != FAILED && v.rows[id].status != FAILED
            && w.audit <= v.audit
  {
    hide Run;
    hide Possible;
    hide VersionsOk;
    hide OpenOk;
    hide CreatorsOk;
    hide JobsOk;
    hide AuditOk;
    RunOk(before);
    RunKeeps(Run(INITIAL, before), after);
    RunFollows(Run(INITIAL, before), after);
  }

  /** A report is approved exactly if the log holds one approval of it, and that one names it rightly. */
  lemma ApprovalsAgree(steps: seq<Step>, id: nat)
    requires Possible(INITIAL, steps)
    ensures var w := Run(INITIAL, steps);
            && Approvals(w.audit, id) == (if IsApproved(w.rows, id) then 1 else 0)
            && (forall i :: 0 <= i < |w.audit| && w.audit[i].ApproveMonthly? && w.audit[i].monthly == id ==>
                  && id in w.rows && w.rows[id].approval.Some?
                  && w.audit[i] == ApproveMonthly(w.rows[id].approval.value.user, id, w.rows[id].property,
                                                  w.rows[id].month, w.rows[id].version))
  {
    hide Run;
    hide Possible;
    hide VersionsOk;
    hide OpenOk;
    hide CreatorsOk;
    hide JobsOk;
    RunOk(steps);
    var w := Run(INITIAL, steps);
    assert Counted(w.rows, w.audit, id);
    forall i | 0 <= i < |w.audit| ensures RecordOk(w.rows, w.audit[i]) {
    }
  }

  /** A background job always finds its row still generating. */
  lemma JobsFindGenerating(steps: seq<Step>, id: nat)
    requires Possible(INITIAL, steps) && id in Run(INITIAL, steps).jobs
    ensures id in Run(INITIAL, steps).rows && Run(INITIAL, steps).rows[id].status == GENERATING
  {
    hide Run;
    hide Possible;
    RunOk(steps);
  }
}
