/**
  Monthly reports as a step system (app/services/monthly.py, app/api/routers/monthly.py,
  app/api/routers/monthly_ui.py, app/infra/db/repositories.py). Creation reads the largest version
  and inserts in separate steps; generation, save and approve are one transaction each.
 */
module Desk {
  import opened Wrappers
  import opened Domain
  import opened Tables

  /** What the unique constraint on `monthly_reports` speaks about. */
  datatype Slot = Slot(property: nat, month: Month, version: nat)

  datatype Stage = Reading | Chosen(version: nat) | Opened(version: nat) | Closed

  /** One request for a new version. */
  datatype Creator = Creator(property: nat, month: Month, stage: Stage)

  /** An inserted row that is not committed. */
  datatype OpenRow = OpenRow(owner: nat, id: nat)

  datatype State = State(
    rows: map<nat, Monthly>,
    audit: seq<Audit>,
    open: map<Slot, OpenRow>,
    lastId: nat,
    creators: seq<Creator>,
    /** Rows whose background job has not run yet. */
    jobs: set<nat>)

  const INITIAL := State(map[], [], map[], 0, [], {})

  datatype Step =
    | Request(caller: Caller, property: nat, month: Month)
    | ReadMax(c: nat)
    | InsertVersion(c: nat)
    | CommitVersion(c: nat, scheduled: bool)
    | Abort(c: nat)
    | Generate(id: nat, attempt: Result<string, Error>)
    | Save(caller: Caller, id: nat, body: string)
    | Approve(caller: Caller, id: nat, at: Instant)
    | SaveAndApprove(caller: Caller, id: nat, body: string, at: Instant)
    /** A record that some other use case appends. */
    | Log(entry: Audit)

  predicate InStage(w: State, c: nat, stage: Stage) {
    c < |w.creators| && w.creators[c].stage == stage
  }

  /** The slot creator `c` wants or has. */
  function SlotOf(w: State, c: nat): Slot
    requires c < |w.creators| && (w.creators[c].stage.Chosen? || w.creators[c].stage.Opened?)
  {
    Slot(w.creators[c].property, w.creators[c].month, w.creators[c].stage.version)
  }

  predicate Enabled(w: State, s: Step) {
    match s
    case Request(caller, property, _) => !caller.qa && property in caller.permitted
    case ReadMax(c) => InStage(w, c, Reading)
    case InsertVersion(c) =>
      // waits while another transaction has the slot
      c < |w.creators| && w.creators[c].stage.Chosen? && SlotOf(w, c) !in w.open
    case CommitVersion(c, _) => c < |w.creators| && w.creators[c].stage.Opened? && SlotOf(w, c) in w.open
    case Abort(c) => c < |w.creators| && !w.creators[c].stage.Closed?
    case Generate(id, _) => id in w.jobs
    case Save(_, _, _) => true
    case Approve(_, _, _) => true
    case SaveAndApprove(_, _, _, _) => true
    case Log(entry) => !entry.ApproveMonthly?
  }

  function SetStage(w: State, c: nat, stage: Stage): State
    requires c < |w.creators|
  {
    w.(creators := w.creators[c := w.creators[c].(stage := stage)])
  }

  /** The insert: a committed row with the same version violates the unique constraint. */
  function SlotInserted(w: State, c: nat): State
    requires c < |w.creators| && w.creators[c].stage.Chosen?
  {
    var slot := SlotOf(w, c);
    var next := w.(lastId := w.lastId + 1);
    if HasVersion(w.rows, slot.property, slot.month, slot.version) then SetStage(next, c, Closed)
    else SetStage(next.(open := w.open[slot := OpenRow(c, w.lastId + 1)]), c, Opened(slot.version))
  }

  function Committed(w: State, c: nat, scheduled: bool): State
    requires c < |w.creators| && w.creators[c].stage.Opened? && SlotOf(w, c) in w.open
  {
    var slot := SlotOf(w, c);
    var id := w.open[slot].id;
    SetStage(w.(rows := w.rows[id := Fresh(slot.property, slot.month, slot.version)],
                open := w.open - {slot},
                jobs := if scheduled then w.jobs + {id} else w.jobs), c, Closed)
  }

  function Aborted(w: State, c: nat): State
    requires c < |w.creators|
  {
    SetStage(if w.creators[c].stage.Opened? then w.(open := w.open - {SlotOf(w, c)}) else w, c, Closed)
  }

  /** The tables as one transaction sees them; these use cases do not look at reports. */
  function View(w: State): Db {
    Db(Facts(map[], map[], map[]), w.rows, w.audit)
  }

  /** Unit of work: a failed use case leaves nothing behind. */
  function Settled(w: State, outcome: Result<Db, Error>): State {
    match outcome
    case Ok(db) => w.(rows := db.monthly, audit := db.audit)
    case Err(_) => w
  }

  ghost function Next(w: State, s: Step): State
    requires Enabled(w, s)
  {
    match s
    case Request(_, property, month) => w.(creators := w.creators + [Creator(property, month, Reading)])
    case ReadMax(c) => SetStage(w, c, Chosen(NextVersion(w.rows, w.creators[c].property, w.creators[c].month)))
    case InsertVersion(c) => SlotInserted(w, c)
    case CommitVersion(c, scheduled) => Committed(w, c, scheduled)
    case Abort(c) => Aborted(w, c)
    case Generate(id, attempt) => Settled(w.(jobs := w.jobs - {id}), Generated(View(w), id, attempt))
    case Save(caller, id, body) => Settled(w, Saved(View(w), caller, id, body))
    case Approve(caller, id, at) => Settled(w, Approved(View(w), caller, id, at))
    case SaveAndApprove(caller, id, body, at) => Settled(w, SavedAndApproved(View(w), caller, id, body, at))
    case Log(entry) => w.(audit := w.audit + [entry])
  }

  ghost predicate Possible(w: State, steps: seq<Step>)
    decreases |steps|
  {
    steps == [] || (Enabled(w, steps[0]) && Possible(Next(w, steps[0]), steps[1..]))
  }

  ghost function Run(w: State, steps: seq<Step>): State
    requires Possible(w, steps)
    decreases |steps|
  {
    if steps == [] then w else Run(Next(w, steps[0]), steps[1..])
  }
}
