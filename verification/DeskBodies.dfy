/** Whose text, approver and time a monthly report holds, over whole runs. */
module DeskBodies {
  import opened Wrappers
  import opened Domain
  import opened Tables
  import opened Desk
  import opened DeskLaws
  import opened DeskRuns

  /** A draft that the caller may edit. */
  predicate MayEdit(w: State, caller: Caller, id: nat) {
    !caller.qa && id in w.rows && w.rows[id].property in caller.permitted && w.rows[id].status == DRAFT
  }

  /** The text that the step writes into the row. */
  function Writes(w: State, s: Step, id: nat): Option<string> {
    match s
    case Generate(row, attempt) => if row == id && id in w.rows && attempt.Ok? then Some(attempt.value) else None
    case Save(caller, row, body) => if row == id && MayEdit(w, caller, id) then Some(body) else None
    case SaveAndApprove(caller, row, body, _) => if row == id && MayEdit(w, caller, id) then Some(body) else None
    case _ => None
  }

  /** The approval that the step gives the row. */
  function Approves(w: State, s: Step, id: nat): Option<Approval> {
    match s
    case Approve(caller, row, at) => if row == id && MayEdit(w, caller, id) then Some(Approval(caller.id, at)) else None
    case SaveAndApprove(caller, row, _, at) =>
      if row == id && MayEdit(w, caller, id) then Some(Approval(caller.id, at)) else None
    case _ => None
  }

  function Newer(written: Option<string>, text: string): string {
    if written.Some? then written.value else text
  }

  /** The last text written into the row from `w` on, or `text` if none is. */
  ghost function LastText(w: State, steps: seq<Step>, id: nat, text: string): string
    requires Possible(w, steps)
    decreases |steps|
  {
    if steps == [] then text
    else LastText(Next(w, steps[0]), steps[1..], id, Newer(Writes(w, steps[0], id), text))
  }

  /** The approval given to the row from `w` on, or `approval` if none is. */
  ghost function LastApproval(w: State, steps: seq<Step>, id: nat, approval: Option<Approval>): Option<Approval>
    requires Possible(w, steps)
    decreases |steps|
  {
    if steps == [] then approval
    else
      var given := Approves(w, steps[0], id);
      LastApproval(Next(w, steps[0]), steps[1..], id, if given.Some? then given else approval)
  }

  function TextIn(w: State, id: nat): string { if id in w.rows then w.rows[id].body else "" }

  function ApprovalIn(w: State, id: nat): Option<Approval> { if id in w.rows then w.rows[id].approval else None }

  ghost predicate Wrote(w: State, s: Step, id: nat)
    requires Enabled(w, s)
  {
    && TextIn(Next(w, s), id) == Newer(Writes(w, s, id), TextIn(w, id))
    && ApprovalIn(Next(w, s), id) == if Approves(w, s, id).Some? then Approves(w, s, id) else ApprovalIn(w, id)
  }

  lemma CommitWrites(w: State, c: nat, scheduled: bool, id: nat)
    requires OpenOk(w) && Enabled(w, CommitVersion(c, scheduled))
    ensures Wrote(w, CommitVersion(c, scheduled), id)
  {
    hide HasVersion;
    assert SlotOk(w, SlotOf(w, c));
  }

  lemma EditWrites(w: State, s: Step, id: nat)
    requires Enabled(w, s) && (s.Generate? || s.Save? || s.Approve?)
    ensures Wrote(w, s, id)
  {
  }

  lemma SaveAndApproveWrites(w: State, caller: Caller, row: nat, body: string, at: Instant, id: nat)
    ensures Wrote(w, SaveAndApprove(caller, row, body, at), id)
  {
  }

  lemma StepWrites(w: State, s: Step, id: nat)
    requires OpenOk(w) && Enabled(w, s)
    ensures Wrote(w, s, id)
  {
    hide OpenOk;
    hide HasVersion;
    hide NextVersion;
    match s {
      case CommitVersion(c, scheduled) =>
        hide Wrote;
        CommitWrites(w, c, scheduled, id);
      case Generate(_, _) =>
        hide Wrote;
        EditWrites(w, s, id);
      case Save(_, _, _) =>
        hide Wrote;
        EditWrites(w, s, id);
      case Approve(_, _, _) =>
        hide Wrote;
        EditWrites(w, s, id);
      case SaveAndApprove(caller, row, body, at) =>
        hide Wrote;
        SaveAndApproveWrites(w, caller, row, body, at, id);
      case _ =>
    }
  }

  lemma {:induction false} RunWrites(w: State, steps: seq<Step>, id: nat)
    requires Inv(w) && Possible(w, steps)
    ensures TextIn(Run(w, steps), id) == LastText(w, steps, id, TextIn(w, id))
    ensures ApprovalIn(Run(w, steps), id) == LastApproval(w, steps, id, ApprovalIn(w, id))
    decreases |steps|
  {
    hide Enabled;
    hide Next;
    hide Writes;
    hide Approves;
    hide OpenOk;
    if steps != [] {
      StepKeeps(w, steps[0]);
      StepWrites(w, steps[0], id);
      hide Inv;
      RunWrites(Next(w, steps[0]), steps[1..], id);
    }
  }

  /**
    In every run: a committed report holds the text that was last generated for it or last saved by
    someone allowed to, empty if there was none; and the approver and time of the approval it got.
   */
  lemma RowsHoldLastWritten(steps: seq<Step>, id: nat)
    requires Possible(INITIAL, steps) && id in Run(INITIAL, steps).rows
    ensures Run(INITIAL, steps).rows[id].body == LastText(INITIAL, steps, id, "")
    ensures Run(INITIAL, steps).rows[id].approval == LastApproval(INITIAL, steps, id, None)
  {
    hide Run;
    hide Possible;
    hide LastText;
    hide LastApproval;
    InitialOk();
    hide Inv;
    RunWrites(INITIAL, steps, id);
  }
}
