/**
  The database as the application sees it: committed tables, and sessions that work on a copy
  until they commit or roll back (app/core/db.py, app/infra/db/repositories.py).
 */
module Store {
  import opened Wrappers
  import opened Domain
  import opened Tables

  /** Committed state. The id sequences never roll back. */
  class Database {
    var committed: Db
    var lastReport: nat
    var lastMonthly: nat

    constructor ()
      ensures committed == Db(Facts(map[], map[], map[]), map[], [])
      ensures lastReport == lastMonthly == 0
    {
      committed := Db(Facts(map[], map[], map[]), map[], []);
      lastReport, lastMonthly := 0, 0;
    }
  }

  class Session {
    const database: Database
    var working: Db

    constructor (database: Database)
      ensures this.database == database && working == database.committed
    {
      this.database := database;
      working := database.committed;
    }

    method Commit()
      modifies database`committed
      ensures database.committed == working
    {
      database.committed := working;
    }

    method Rollback()
      modifies this
      ensures working == database.committed
    {
      working := database.committed;
    }

    /** `INSERT … ON CONFLICT DO NOTHING RETURNING id`, then the analysis and the chunks. */
    method UpsertIngested(draft: Draft) returns (id: Option<nat>)
      modifies this, database`lastReport
      ensures database.lastReport == old(database.lastReport) + 1
      ensures id.None? <==> HasKey(old(working.facts), draft.report.sourceKey)
      ensures id.None? ==> working == old(working)
      ensures id.Some? ==> && id.value == database.lastReport
                           && working == old(working).(facts := Inserted(old(working.facts), id.value, draft))
    {
      database.lastReport := database.lastReport + 1;
      if HasKey(working.facts, draft.report.sourceKey) {
        return None;
      }
      var row := database.lastReport;
      var facts := working.facts;
      var reports := facts.reports[row := draft.report];
      var analyses := facts.analyses[row := AsStored(draft.analysis)];
      var chunks := facts.chunks[row := draft.chunks];
      working := working.(facts := Facts(reports, analyses, chunks));
      return Some(row);
    }

    method UpdateAnalysis(report: nat, labels: Labels, permitted: set<nat>) returns (r: Result<Analysis, Error>)
      modifies this
      ensures match Tables.UpdateAnalysis(old(working.facts), report, labels, permitted)
              case Ok(facts) =>
                && working == old(working).(facts := facts)
                && report in facts.analyses && r == Ok(facts.analyses[report])
              case Err(e) => working == old(working) && r == Err(e)
    {
      var facts := working.facts;
      if report !in facts.reports {
        return Err(NotFound);
      }
      if facts.reports[report].property !in permitted {
        return Err(PermissionDenied);
      }
      if report !in facts.analyses {
        return Err(NotFound);
      }
      var analysis := facts.analyses[report];
      analysis := analysis.(labels := labels);
      analysis := analysis.(status := HUMAN_VERIFIED);
      working := working.(facts := facts.(analyses := facts.analyses[report := analysis]));
      return Ok(analysis);
    }

    /** `SELECT max(version)` for one property and month, 0 if there is no row. */
    method MaxVersion(property: nat, month: Month) returns (v: nat)
      ensures v == Max(Versions(working.monthly, property, month))
    {
      v := 0;
      var left := working.monthly.Keys;
      ghost var seen: set<nat> := {};
      while left != {}
        invariant left <= working.monthly.Keys
        invariant seen == set id | id in working.monthly && id !in left && Of(working.monthly[id], property, month)
                            :: working.monthly[id].version
        invariant (seen == {} && v == 0) || v in seen
        invariant forall x :: x in seen ==> x <= v
        decreases left
      {
        var id :| id in left;
        var row := working.monthly[id];
        if Of(row, property, month) {
          seen := seen + {row.version};
          v := if row.version > v then row.version else v;
        }
        left := left - {id};
      }
      assert seen == Versions(working.monthly, property, month);
    }

    method CreateGenerating(property: nat, month: Month, permitted: set<nat>) returns (r: Result<nat, Error>)
      modifies this, database`lastMonthly
      ensures property !in permitted ==>
                && r == Err(PermissionDenied) && working == old(working)
                && database.lastMonthly == old(database.lastMonthly)
      ensures property in permitted ==>
                && database.lastMonthly == old(database.lastMonthly) + 1 && r == Ok(database.lastMonthly)
                && working == old(working).(monthly := old(working.monthly)[database.lastMonthly :=
                     Fresh(property, month, NextVersion(old(working.monthly), property, month))])
    {
      if property !in permitted {
        return Err(PermissionDenied);
      }
      var v := MaxVersion(property, month);
      database.lastMonthly := database.lastMonthly + 1;
      var row := Monthly(property, month, v + 1, "", GENERATING, None);
      working := working.(monthly := working.monthly[database.lastMonthly := row]);
      return Ok(database.lastMonthly);
    }

    method GetInternal(id: nat) returns (r: Result<Monthly, Error>)
      ensures r == if id in working.monthly then Ok(working.monthly[id]) else Err(NotFound)
    {
      if id !in working.monthly {
        return Err(NotFound);
      }
      return Ok(working.monthly[id]);
    }

    method Get(id: nat, permitted: set<nat>) returns (r: Result<Monthly, Error>)
      ensures r == GetMonthly(working.monthly, id, permitted)
    {
      r := GetInternal(id);
      if r.Ok? && r.value.property !in permitted {
        return Err(PermissionDenied);
      }
    }

    method SetBody(id: nat, body: string, status: MonthlyStatus) returns (r: Result<Monthly, Error>)
      modifies this
      ensures id !in old(working.monthly) ==> r == Err(NotFound) && working == old(working)
      ensures id in old(working.monthly) ==>
                && r == Ok(old(working.monthly[id]).(body := body, status := status))
                && working == old(working).(monthly := old(working.monthly)[id := r.value])
    {
      if id !in working.monthly {
        return Err(NotFound);
      }
      var row := working.monthly[id].(body := body, status := status);
      working := working.(monthly := working.monthly[id := row]);
      return Ok(row);
    }

    method Approve(id: nat, approver: nat, at: Instant) returns (r: Result<Monthly, Error>)
      modifies this
      ensures id !in old(working.monthly) ==> r == Err(NotFound) && working == old(working)
      ensures id in old(working.monthly) ==>
                && r == Ok(old(working.monthly[id]).(status := APPROVED, approval := Some(Approval(approver, at))))
                && working == old(working).(monthly := old(working.monthly)[id := r.value])
    {
      if id !in working.monthly {
        return Err(NotFound);
      }
      var row := working.monthly[id].(status := APPROVED, approval := Some(Approval(approver, at)));
      working := working.(monthly := working.monthly[id := row]);
      return Ok(row);
    }

    method Record(entry: Audit)
      modifies this
      ensures working == old(working).(audit := old(working.audit) + [entry])
    {
      working := working.(audit := working.audit + [entry]);
    }
  }
}

/** The use cases, each in its own unit of work (app/services, app/api/routers). */
module UseCases {
  import opened Wrappers
  import opened Domain
  import opened Tables
  import opened Store

  /** What comes of an outcome when the database does, or does not, accept the commit. */
  function Settle<T>(outcome: Result<T, Error>, commits: bool): Result<T, Error> {
    if outcome.Ok? && !commits then Err(Unavailable) else outcome
  }

  /** `unit_of_work`: commit on success, roll back on any error, also one that the commit raises. */
  method Finish<T>(session: Session, r: Result<T, Error>, commits: bool) returns (out: Result<T, Error>)
    modifies session, session.database`committed
    ensures out == Settle(r, commits)
    ensures out.Ok? ==> session.database.committed == old(session.working)
    ensures out.Err? ==> session.database.committed == old(session.database.committed)
  {
    if r.Ok? && commits {
      session.Commit();
      return r;
    }
    session.Rollback();
    return if r.Ok? then Err(Unavailable) else r;
  }

  /** What a use case leaves in the database. */
  predicate Leaves<T>(before: Db, outcome: Result<Db, Error>, after: Db, r: Result<T, Error>) {
    match outcome
    case Ok(db) => after == db && r.Ok?
    case Err(e) => after == before && r == Err(e)
  }

  /** One monthly row has changed and the log has grown; nothing else has changed. */
  predicate RowSet(before: Db, after: Db, id: nat, row: Monthly, entries: seq<Audit>) {
    after == before.(monthly := before.monthly[id := row], audit := before.audit + entries)
  }

  /** A draft the caller may edit. */
  predicate IsOpen(rows: map<nat, Monthly>, caller: Caller, id: nat) {
    !caller.qa && id in rows && rows[id].property in caller.permitted && rows[id].status == DRAFT
  }

  /** The record of approving the row. */
  function RecordOf(caller: Caller, id: nat, row: Monthly): Audit {
    ApproveMonthly(caller.id, id, row.property, row.month, row.version)
  }

  method OverrideAnalysis(database: Database, caller: Caller, report: nat, labels: Labels, commits: bool)
    returns (r: Result<Analysis, Error>)
    modifies database`committed
    ensures Leaves(old(database.committed),
                   Settle(Overridden(old(database.committed), caller, report, labels), commits), database.committed, r)
    ensures var f := old(database.committed.facts);
            && (r.Ok? <==> && commits && report in f.reports && report in f.analyses
                           && f.reports[report].property in caller.permitted)
            && (r.Ok? ==>
                  && r.value == f.analyses[report].(labels := labels, status := HUMAN_VERIFIED)
                  && database.committed == old(database.committed).(
                       facts := f.(analyses := f.analyses[report := r.value]),
                       audit := old(database.committed.audit) + [Audit.OverrideAnalysis(caller.id, report, labels)]))
            && (report !in f.reports ==> r == Err(NotFound))
            && (report in f.reports && f.reports[report].property !in caller.permitted ==> r == Err(PermissionDenied))
    ensures r.Err? ==> database.committed == old(database.committed)
  {
    var session := new Session(database);
    r := session.UpdateAnalysis(report, labels, caller.permitted);
    if r.Ok? {
      session.Record(Audit.OverrideAnalysis(caller.id, report, labels));
    }
    r := Finish(session, r, commits);
  }

  /** A search leaves its record in its own transaction, before it streams anything. */
  method RecordSearch(database: Database, caller: Caller, query: string, commits: bool)
    returns (r: Result<bool, Error>)
    modifies database`committed
    ensures r == Settle(Ok(true), commits)
    ensures database.committed == if commits
                                  then old(database.committed).(audit :=
                                         old(database.committed.audit) + [SearchQuery(caller.id, query)])
                                  else old(database.committed)
  {
    var session := new Session(database);
    session.Record(SearchQuery(caller.id, query));
    r := Finish(session, Ok(true), commits);
  }

  /** `request_generation`: a new `generating` row, one version up. */
  method RequestGeneration(database: Database, caller: Caller, property: nat, month: Month, commits: bool)
    returns (r: Result<nat, Error>)
    modifies database`committed, database`lastMonthly
    ensures r.Err? ==> database.committed == old(database.committed)
    ensures caller.qa || property !in caller.permitted ==> r == Err(PermissionDenied)
    ensures !caller.qa && property in caller.permitted ==>
              r == Settle(Ok(old(database.lastMonthly) + 1), commits)
    ensures r.Ok? ==>
              database.committed == old(database.committed).(monthly := old(database.committed.monthly)[r.value :=
                Monthly(property, month, NextVersion(old(database.committed.monthly), property, month), "",
                        GENERATING, None)])
  {
    var session := new Session(database);
    if caller.qa {
      r := Err(PermissionDenied);
    } else {
      r := session.CreateGenerating(property, month, caller.permitted);
    }
    r := Finish(session, r, commits);
  }

  /** `run_generation`: on failure the row is set to `failed` before the error is raised again. */
  method Generate(session: Session, id: nat, attempt: Result<string, Error>) returns (r: Result<Monthly, Error>)
    modifies session
    ensures id !in old(session.working.monthly) ==> r == Err(NotFound) && session.working == old(session.working)
    ensures id in old(session.working.monthly) && attempt.Ok? ==>
              && r.Ok? && Generated(old(session.working), id, attempt) == Ok(session.working)
              && id in session.working.monthly && r.value == session.working.monthly[id]
    ensures id in old(session.working.monthly) && attempt.Err? ==>
              && r == Err(attempt.error)
              && session.working == old(session.working).(monthly :=
                   old(session.working.monthly)[id := old(session.working.monthly[id]).(status := FAILED)])
  {
    r := session.GetInternal(id);
    if r.Err? {
      return;
    }
    var report := r.value;
    match attempt
    case Ok(body) =>
      r := session.SetBody(id, body, DRAFT);
    case Err(e) =>
      var failed := session.SetBody(id, report.body, FAILED);
      r := Err(e);
  }

  /** The background job: what `run_generation` wrote on failure is rolled back with the error. */
  method RunGeneration(database: Database, id: nat, attempt: Result<string, Error>, commits: bool)
    returns (r: Result<Monthly, Error>)
    modifies database`committed
    ensures Leaves(old(database.committed), Settle(Generated(old(database.committed), id, attempt), commits),
                   database.committed, r)
    ensures r.Ok? <==> commits && id in old(database.committed.monthly) && attempt.Ok?
    ensures r.Ok? ==> && r.value == old(database.committed.monthly[id]).(body := attempt.value, status := DRAFT)
                      && RowSet(old(database.committed), database.committed, id, r.value, [])
    ensures r.Err? ==> database.committed == old(database.committed)
  {
    var session := new Session(database);
    r := Generate(session, id, attempt);
    r := Finish(session, r, commits);
    assert old(database.committed.audit) + [] == old(database.committed.audit);
  }

  /** The checks both edits make, then the row. */
  method Open(session: Session, caller: Caller, id: nat) returns (r: Result<Monthly, Error>)
    ensures r == Editable(session.working.monthly, caller, id)
  {
    if caller.qa {
      return Err(PermissionDenied);
    }
    r := session.Get(id, caller.permitted);
    if r.Ok? && r.value.status != DRAFT {
      return Err(InvalidState);
    }
  }

  method SaveDraft(session: Session, caller: Caller, id: nat, body: string) returns (r: Result<Monthly, Error>)
    modifies session
    ensures Leaves(old(session.working), Saved(old(session.working), caller, id, body), session.working, r)
    ensures r.Ok? ==> id in session.working.monthly && r.value == session.working.monthly[id]
  {
    r := Open(session, caller, id);
    if r.Ok? {
      r := session.SetBody(id, body, DRAFT);
    }
  }

  method Approve(session: Session, caller: Caller, id: nat, now: Instant) returns (r: Result<Monthly, Error>)
    modifies session
    ensures Leaves(old(session.working), Approved(old(session.working), caller, id, now), session.working, r)
    ensures r.Ok? ==> id in session.working.monthly && r.value == session.working.monthly[id]
  {
    r := Open(session, caller, id);
    if r.Ok? {
      r := session.Approve(id, caller.id, now);
      session.Record(ApproveMonthly(caller.id, id, r.value.property, r.value.month, r.value.version));
    }
  }

  method PatchSave(database: Database, caller: Caller, id: nat, body: string, commits: bool)
    returns (r: Result<Monthly, Error>)
    modifies database`committed
    ensures Leaves(old(database.committed), Settle(Saved(old(database.committed), caller, id, body), commits),
                   database.committed, r)
    ensures r.Ok? <==> commits && IsOpen(old(database.committed.monthly), caller, id)
    ensures r.Ok? ==> && r.value == old(database.committed.monthly[id]).(body := body)
                      && RowSet(old(database.committed), database.committed, id, r.value, [])
    ensures r.Err? ==> database.committed == old(database.committed)
  {
    var session := new Session(database);
    r := SaveDraft(session, caller, id, body);
    r := Finish(session, r, commits);
    assert old(database.committed.audit) + [] == old(database.committed.audit);
  }

  method PatchApprove(database: Database, caller: Caller, id: nat, now: Instant, commits: bool)
    returns (r: Result<Monthly, Error>)
    modifies database`committed
    ensures Leaves(old(database.committed), Settle(Approved(old(database.committed), caller, id, now), commits),
                   database.committed, r)
    ensures r.Ok? <==> commits && IsOpen(old(database.committed.monthly), caller, id)
    ensures r.Ok? ==> && r.value == old(database.committed.monthly[id]).(
                           status := APPROVED, approval := Some(Approval(caller.id, now)))
                      && RowSet(old(database.committed), database.committed, id, r.value,
                                [RecordOf(caller, id, r.value)])
    ensures r.Err? ==> database.committed == old(database.committed)
  {
    var session := new Session(database);
    r := Approve(session, caller, id, now);
    r := Finish(session, r, commits);
  }

  /** The approve button: both steps succeed together or leave nothing behind. */
  method PageApprove(database: Database, caller: Caller, id: nat, body: string, now: Instant, commits: bool)
    returns (r: Result<Monthly, Error>)
    modifies database`committed
    ensures Leaves(old(database.committed),
                   Settle(SavedAndApproved(old(database.committed), caller, id, body, now), commits),
                   database.committed, r)
    ensures r.Ok? <==> commits && IsOpen(old(database.committed.monthly), caller, id)
    ensures r.Ok? ==> && r.value == old(database.committed.monthly[id]).(
                           body := body, status := APPROVED, approval := Some(Approval(caller.id, now)))
                      && RowSet(old(database.committed), database.committed, id, r.value,
                                [RecordOf(caller, id, r.value)])
    ensures r.Err? ==> database.committed == old(database.committed)
  {
    var session := new Session(database);
    r := SaveDraft(session, caller, id, body);
    if r.Ok? {
      r := Approve(session, caller, id, now);
    }
    r := Finish(session, r, commits);
  }
}
