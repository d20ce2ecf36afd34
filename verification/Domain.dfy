/** Values and table rows (app/domain/values.py, app/domain/entities.py, app/infra/db/models.py). */
module Domain {
  import opened Wrappers

  datatype Category = CLEANING | EQUIPMENT_FAILURE | CLAIM | OTHER

  datatype Urgency = HIGH | MEDIUM | LOW

  /** The values the code writes; `processing` and `failed` are never stored. */
  datatype AnalysisStatus = AUTO_CLASSIFIED | NEEDS_REVIEW | HUMAN_VERIFIED

  datatype MonthlyStatus = GENERATING | DRAFT | APPROVED | FAILED

  datatype Error = PermissionDenied | NotFound | InvalidState | ValueError | Unavailable

  /** A time stamp, by its fields in UTC. */
  datatype Instant = Instant(year: nat, month: nat, day: nat, micros: nat) {
    predicate Valid() {
      1 <= year <= 9999 && 1 <= month <= 12 && 1 <= day <= 31 && micros < 86_400_000_000
    }
  }

  /** `a <= b` for time stamps. */
  predicate NotAfter(a: Instant, b: Instant) {
    || a.year < b.year
    || (a.year == b.year && (|| a.month < b.month
                             || (a.month == b.month && (|| a.day < b.day
                                                        || (a.day == b.day && a.micros <= b.micros)))))
  }

  /** Microseconds on a calendar in which every month has 31 days. */
  function Clock(t: Instant): int {
    ((t.year * 12 + t.month) * 31 + t.day) * 86_400_000_000 + t.micros
  }

  lemma NotAfterIsClock(a: Instant, b: Instant)
    requires a.Valid() && b.Valid()
    ensures NotAfter(a, b) <==> Clock(a) <= Clock(b)
  {
  }

  /** The first day of a month. */
  datatype Month = Month(year: nat, month: nat) {
    predicate Valid() { 1 <= year <= 9999 && 1 <= month <= 12 }
  }

  /** What a user can override. */
  datatype Labels = Labels(category: Category, urgency: Urgency, actionRequired: bool)

  datatype Report = Report(property: nat, sourceKey: string, reportedAt: Instant, rawText: string)

  datatype Analysis = Analysis(labels: Labels, summary: string, confidence: real, status: AnalysisStatus)

  /** What one ingest wants to store. */
  datatype Draft = Draft(report: Report, analysis: Analysis, chunks: seq<string>)

  datatype Approval = Approval(user: nat, at: Instant)

  datatype Monthly = Monthly(property: nat, month: Month, version: nat, body: string,
                             status: MonthlyStatus, approval: Option<Approval>)

  datatype Audit =
    | OverrideAnalysis(user: nat, report: nat, labels: Labels)
    | ApproveMonthly(user: nat, monthly: nat, property: nat, month: Month, version: nat)
    | SearchQuery(user: nat, query: string)

  /** `reports`, `report_analyses` and `report_chunks`, by report id. */
  datatype Facts = Facts(reports: map<nat, Report>, analyses: map<nat, Analysis>, chunks: map<nat, seq<string>>)

  datatype Db = Db(facts: Facts, monthly: map<nat, Monthly>, audit: seq<Audit>)

  /** Who calls, and which properties the caller may see. */
  datatype Caller = Caller(id: nat, qa: bool, permitted: set<nat>)
}

/** What each use case does to the tables (app/infra/db/repositories.py, app/services). */
module Tables {
  import opened Wrappers
  import opened Domain
  import opened Singles

  // ---------- reports ----------

  predicate HasKey(facts: Facts, key: string) {
    exists id :: id in facts.reports && facts.reports[id].sourceKey == key
  }

  /** What the columns keep: `confidence` is a `REAL`. */
  function AsStored(a: Analysis): Analysis { a.(confidence := Single(a.confidence)) }

  function Inserted(facts: Facts, id: nat, draft: Draft): Facts {
    Facts(facts.reports[id := draft.report], facts.analyses[id := AsStored(draft.analysis)],
          facts.chunks[id := draft.chunks])
  }

  function Relabelled(a: Analysis, labels: Labels): Analysis {
    a.(labels := labels, status := HUMAN_VERIFIED)
  }

  /** `update_analysis` */
  function UpdateAnalysis(facts: Facts, report: nat, labels: Labels, permitted: set<nat>): Result<Facts, Error> {
    if report !in facts.reports then Err(NotFound)
    else if facts.reports[report].property !in permitted then Err(PermissionDenied)
    else if report !in facts.analyses then Err(NotFound)
    else Ok(facts.(analyses := facts.analyses[report := Relabelled(facts.analyses[report], labels)]))
  }

  /** `override_analysis`: relabel, then append to the log. */
  function Overridden(db: Db, caller: Caller, report: nat, labels: Labels): Result<Db, Error> {
    match UpdateAnalysis(db.facts, report, labels, caller.permitted)
    case Err(e) => Err(e)
    case Ok(facts) =>
      Ok(db.(facts := facts, audit := db.audit + [OverrideAnalysis(caller.id, report, labels)]))
  }

  // ---------- monthly reports ----------

  predicate Of(row: Monthly, property: nat, month: Month) {
    row.property == property && row.month == month
  }

  function Versions(rows: map<nat, Monthly>, property: nat, month: Month): set<nat> {
    set id | id in rows && Of(rows[id], property, month) :: rows[id].version
  }

  /** The largest member, or 0. */
  ghost function Max(s: set<nat>): (r: nat)
    ensures s == {} ==> r == 0
    ensures s != {} ==> r in s
    ensures forall x :: x in s ==> x <= r
  {
    if s == {} then 0
    else
      var x :| x in s;
      var rest := Max(s - {x});
      assert s == (s - {x}) + {x};
      assert s - {x} == {} ==> rest == 0;
      if x > rest then x else rest
  }

  /** `(SELECT max(version) …) or 0`, plus one */
  ghost function NextVersion(rows: map<nat, Monthly>, property: nat, month: Month): nat {
    Max(Versions(rows, property, month)) + 1
  }

  predicate HasVersion(rows: map<nat, Monthly>, property: nat, month: Month, version: nat) {
    exists id :: id in rows && Of(rows[id], property, month) && rows[id].version == version
  }

  function Fresh(property: nat, month: Month, version: nat): Monthly {
    Monthly(property, month, version, "", GENERATING, None)
  }

  /** `get` with the permission check. */
  function GetMonthly(rows: map<nat, Monthly>, id: nat, permitted: set<nat>): Result<Monthly, Error> {
    if id !in rows then Err(NotFound)
    else if rows[id].property !in permitted then Err(PermissionDenied)
    else Ok(rows[id])
  }

  /** The checks `save_draft` and `approve` share. */
  function Editable(rows: map<nat, Monthly>, caller: Caller, id: nat): (r: Result<Monthly, Error>)
    ensures r.Ok? <==> !caller.qa && id in rows && rows[id].property in caller.permitted && rows[id].status == DRAFT
    ensures r.Ok? ==> r.value == rows[id]
    ensures caller.qa || (id in rows && rows[id].property !in caller.permitted) ==> r == Err(PermissionDenied)
    ensures !caller.qa && id !in rows ==> r == Err(NotFound)
    ensures !caller.qa && id in rows && rows[id].property in caller.permitted && rows[id].status != DRAFT ==>
              r == Err(InvalidState)
  {
    if caller.qa then Err(PermissionDenied)
    else
      match GetMonthly(rows, id, caller.permitted)
      case Err(e) => Err(e)
      case Ok(row) => if row.status != DRAFT then Err(InvalidState) else Ok(row)
  }

  function Saved(db: Db, caller: Caller, id: nat, body: string): Result<Db, Error> {
    match Editable(db.monthly, caller, id)
    case Err(e) => Err(e)
    case Ok(row) => Ok(db.(monthly := db.monthly[id := row.(body := body)]))
  }

  function Approved(db: Db, caller: Caller, id: nat, at: Instant): Result<Db, Error> {
    match Editable(db.monthly, caller, id)
    case Err(e) => Err(e)
    case Ok(row) =>
      var done := row.(status := APPROVED, approval := Some(Approval(caller.id, at)));
      Ok(db.(monthly := db.monthly[id := done],
             audit := db.audit + [ApproveMonthly(caller.id, id, row.property, row.month, row.version)]))
  }

  /** The approve button of the page: save what is on screen, then approve, in one transaction. */
  function SavedAndApproved(db: Db, caller: Caller, id: nat, body: string, at: Instant): Result<Db, Error> {
    match Saved(db, caller, id, body)
    case Err(e) => Err(e)
    case Ok(saved) => Approved(saved, caller, id, at)
  }

  /** One background job, given the body it could or could not compose. */
  function Generated(db: Db, id: nat, attempt: Result<string, Error>): Result<Db, Error> {
    if id !in db.monthly then Err(NotFound)
    else
      match attempt
      case Err(e) => Err(e)
      case Ok(body) => Ok(db.(monthly := db.monthly[id := db.monthly[id].(body := body, status := DRAFT)]))
  }
}
