/**
  Monthly figures (app/infra/db/repositories.py, `_month_bounds` and `compute_stats`). The three
  queries of one computation each see what is committed at their moment.
 */
module Stats {
  import opened Wrappers
  import opened Domain

  // ---------- months ----------

  predicate Earlier(a: Instant, b: Instant) { !NotAfter(b, a) }

  /** `[start of the month, start of the next month)`; there is no year 10000. */
  function MonthBounds(m: Month): Result<(Instant, Instant), Error>
    requires m.Valid()
  {
    var start := Instant(m.year, m.month, 1, 0);
    if m.month == 12 then
      if m.year == 9999 then Err(ValueError) else Ok((start, Instant(m.year + 1, 1, 1, 0)))
    else Ok((start, Instant(m.year, m.month + 1, 1, 0)))
  }

  function MonthOf(t: Instant): Month { Month(t.year, t.month) }

  /** The bounds select exactly the instants of the month, so months partition time. */
  lemma BoundsPartition(m: Month, t: Instant)
    requires m.Valid() && t.Valid()
    ensures MonthBounds(m).Err? <==> m == Month(9999, 12)
    ensures MonthBounds(m).Ok? ==>
              var (start, end) := MonthBounds(m).value;
              NotAfter(start, t) && Earlier(t, end) <==> MonthOf(t) == m
  {
  }

  // ---------- the figures ----------

  /** Reports of the property between the bounds, joined with their analyses. */
  function Selected(facts: Facts, property: nat, start: Instant, end: Instant): set<nat> {
    set id | id in facts.reports && id in facts.analyses && facts.reports[id].property == property
             && NotAfter(start, facts.reports[id].reportedAt) && Earlier(facts.reports[id].reportedAt, end)
  }

  function InCategory(facts: Facts, ids: set<nat>, c: Category): set<nat> {
    set id | id in ids && id in facts.analyses && facts.analyses[id].labels.category == c
  }

  function WithUrgency(facts: Facts, ids: set<nat>, u: Urgency): set<nat> {
    set id | id in ids && id in facts.analyses && facts.analyses[id].labels.urgency == u
  }

  function NeedingAction(facts: Facts, ids: set<nat>): set<nat> {
    set id | id in ids && id in facts.analyses && facts.analyses[id].labels.actionRequired
  }

  datatype MonthlyStats =
    MonthlyStats(total: nat, byCategory: map<Category, nat>, byUrgency: map<Urgency, nat>, actionRequired: nat)

  function Get<K>(m: map<K, nat>, k: K): nat { if k in m then m[k] else 0 }

  function CategorySum(m: map<Category, nat>): nat {
    Get(m, CLEANING) + Get(m, EQUIPMENT_FAILURE) + Get(m, CLAIM) + Get(m, OTHER)
  }

  function UrgencySum(m: map<Urgency, nat>): nat {
    Get(m, HIGH) + Get(m, MEDIUM) + Get(m, LOW)
  }

  /** What the queries by category, by urgency and for required actions saw. */
  datatype Reads = Reads(categories: Facts, urgencies: Facts, actions: Facts)

  /** All three queries saw the same tables. */
  function Once(facts: Facts): Reads { Reads(facts, facts, facts) }

  function InMonth(facts: Facts, property: nat, month: Month): set<nat>
    requires month.Valid()
  {
    match MonthBounds(month)
    case Err(_) => {}
    case Ok(bounds) => Selected(facts, property, bounds.0, bounds.1)
  }

  /**
    The dictionaries hold a positive count for every group that occurred, `total` adds the categories
    up, and the actions are counted on their own.
   */
  ghost predicate Describes(s: MonthlyStats, r: Reads, property: nat, month: Month)
    requires month.Valid()
  {
    && CountsCategories(s.byCategory, r.categories, InMonth(r.categories, property, month))
    && CountsUrgencies(s.byUrgency, r.urgencies, InMonth(r.urgencies, property, month))
    && s.total == CategorySum(s.byCategory)
    && s.actionRequired == |NeedingAction(r.actions, InMonth(r.actions, property, month))|
  }

  lemma AddedOne(s: set<nat>, t: set<nat>, id: nat, counted: bool)
    requires id !in s && t == if counted then s + {id} else s
    ensures |t| == |s| + if counted then 1 else 0
  {
  }

  lemma CountCategory(facts: Facts, ids: set<nat>, id: nat, c: Category)
    requires id in facts.analyses && id !in ids
    ensures |InCategory(facts, ids + {id}, c)| ==
            |InCategory(facts, ids, c)| + if facts.analyses[id].labels.category == c then 1 else 0
  {
    AddedOne(InCategory(facts, ids, c), InCategory(facts, ids + {id}, c), id, facts.analyses[id].labels.category == c);
  }

  lemma CountUrgency(facts: Facts, ids: set<nat>, id: nat, u: Urgency)
    requires id in facts.analyses && id !in ids
    ensures |WithUrgency(facts, ids + {id}, u)| ==
            |WithUrgency(facts, ids, u)| + if facts.analyses[id].labels.urgency == u then 1 else 0
  {
    AddedOne(WithUrgency(facts, ids, u), WithUrgency(facts, ids + {id}, u), id, facts.analyses[id].labels.urgency == u);
  }

  lemma CountAction(facts: Facts, ids: set<nat>, id: nat)
    requires id in facts.analyses && id !in ids
    ensures |NeedingAction(facts, ids + {id})| ==
            |NeedingAction(facts, ids)| + if facts.analyses[id].labels.actionRequired then 1 else 0
  {
    AddedOne(NeedingAction(facts, ids), NeedingAction(facts, ids + {id}), id, facts.analyses[id].labels.actionRequired);
  }

  /** The counts so far. */
  ghost predicate CountsCategories(m: map<Category, nat>, facts: Facts, ids: set<nat>) {
    forall c :: Get(m, c) == |InCategory(facts, ids, c)| && (c in m <==> Get(m, c) > 0)
  }

  ghost predicate CountsUrgencies(m: map<Urgency, nat>, facts: Facts, ids: set<nat>) {
    forall u :: Get(m, u) == |WithUrgency(facts, ids, u)| && (u in m <==> Get(m, u) > 0)
  }

  lemma NothingCounted(facts: Facts)
    ensures CountsCategories(map[], facts, {}) && CountsUrgencies(map[], facts, {}) && NeedingAction(facts, {}) == {}
  {
    forall c ensures InCategory(facts, {}, c) == {} {
    }
    forall u ensures WithUrgency(facts, {}, u) == {} {
    }
  }

  lemma CategoryCounted(m: map<Category, nat>, facts: Facts, ids: set<nat>, id: nat)
    requires CountsCategories(m, facts, ids) && id in facts.analyses && id !in ids
    ensures var c := facts.analyses[id].labels.category; CountsCategories(m[c := Get(m, c) + 1], facts, ids + {id})
  {
    hide InCategory;
    forall c { CountCategory(facts, ids, id, c); }
  }

  lemma UrgencyCounted(m: map<Urgency, nat>, facts: Facts, ids: set<nat>, id: nat)
    requires CountsUrgencies(m, facts, ids) && id in facts.analyses && id !in ids
    ensures var u := facts.analyses[id].labels.urgency; CountsUrgencies(m[u := Get(m, u) + 1], facts, ids + {id})
  {
    hide WithUrgency;
    forall u { CountUrgency(facts, ids, id, u); }
  }

  /** `SELECT category, count(*) … GROUP BY category` */
  method CountCategories(facts: Facts, ids: set<nat>) returns (counts: map<Category, nat>)
    requires ids <= facts.analyses.Keys
    ensures CountsCategories(counts, facts, ids)
  {
    hide CountsCategories;
    counts := map[];
    var left := ids;
    ghost var seen: set<nat> := {};
    NothingCounted(facts);
    while left != {}
      invariant left <= ids && seen == ids - left && CountsCategories(counts, facts, seen)
      decreases left
    {
      var id :| id in left;
      CategoryCounted(counts, facts, seen, id);
      var c := facts.analyses[id].labels.category;
      counts := counts[c := Get(counts, c) + 1];
      left, seen := left - {id}, seen + {id};
    }
    assert seen == ids;
  }

  /** `SELECT urgency, count(*) … GROUP BY urgency` */
  method CountUrgencies(facts: Facts, ids: set<nat>) returns (counts: map<Urgency, nat>)
    requires ids <= facts.analyses.Keys
    ensures CountsUrgencies(counts, facts, ids)
  {
    hide CountsUrgencies;
    counts := map[];
    var left := ids;
    ghost var seen: set<nat> := {};
    NothingCounted(facts);
    while left != {}
      invariant left <= ids && seen == ids - left && CountsUrgencies(counts, facts, seen)
      decreases left
    {
      var id :| id in left;
      UrgencyCounted(counts, facts, seen, id);
      var u := facts.analyses[id].labels.urgency;
      counts := counts[u := Get(counts, u) + 1];
      left, seen := left - {id}, seen + {id};
    }
    assert seen == ids;
  }

  /** Three queries, each on the tables of its moment. */
  method ComputeStats(r: Reads, property: nat, month: Month) returns (stats: Result<MonthlyStats, Error>)
    requires month.Valid()
    ensures stats.Err? <==> month == Month(9999, 12)
    ensures stats.Ok? ==> Describes(stats.value, r, property, month)
    ensures stats.Ok? ==> var ids := InMonth(r.actions, property, month);
                          stats.value.actionRequired + |Idle(r.actions, ids)| == |ids|
  {
    hide CountsCategories;
    hide CountsUrgencies;
    if MonthBounds(month).Err? {
      return Err(ValueError);
    }
    var byCategory := CountCategories(r.categories, InMonth(r.categories, property, month));
    var byUrgency := CountUrgencies(r.urgencies, InMonth(r.urgencies, property, month));
    var action := |NeedingAction(r.actions, InMonth(r.actions, property, month))|;
    stats := Ok(MonthlyStats(CategorySum(byCategory), byCategory, byUrgency, action));
    ActionsComplement(stats.value, r, property, month);
  }

  // ---------- conservation ----------

  lemma Without(ids: set<nat>, part: set<nat>)
    requires part <= ids
    ensures |ids| == |part| + |ids - part|
  {
    assert ids == part + (ids - part);
  }

  lemma CategoriesApart(facts: Facts, ids: set<nat>, c: Category, d: Category)
    requires c != d
    ensures InCategory(facts, ids, c) !! InCategory(facts, ids, d)
  {
  }

  lemma CategoriesCover(facts: Facts, ids: set<nat>)
    requires ids <= facts.analyses.Keys
    ensures ids == InCategory(facts, ids, CLEANING) + InCategory(facts, ids, EQUIPMENT_FAILURE)
                   + InCategory(facts, ids, CLAIM) + InCategory(facts, ids, OTHER)
  {
  }

  lemma CategoriesAddUp(facts: Facts, ids: set<nat>)
    requires ids <= facts.analyses.Keys
    ensures |ids| == |InCategory(facts, ids, CLEANING)| + |InCategory(facts, ids, EQUIPMENT_FAILURE)|
                     + |InCategory(facts, ids, CLAIM)| + |InCategory(facts, ids, OTHER)|
  {
    hide InCategory;
    var a, b := InCategory(facts, ids, CLEANING), InCategory(facts, ids, EQUIPMENT_FAILURE);
    var c, d := InCategory(facts, ids, CLAIM), InCategory(facts, ids, OTHER);
    CategoriesCover(facts, ids);
    CategoriesApart(facts, ids, CLEANING, EQUIPMENT_FAILURE);
    CategoriesApart(facts, ids, CLEANING, CLAIM);
    CategoriesApart(facts, ids, CLEANING, OTHER);
    CategoriesApart(facts, ids, EQUIPMENT_FAILURE, CLAIM);
    CategoriesApart(facts, ids, EQUIPMENT_FAILURE, OTHER);
    CategoriesApart(facts, ids, CLAIM, OTHER);
    assert a !! b && (a + b) !! c && (a + b + c) !! d;
  }

  lemma UrgenciesApart(facts: Facts, ids: set<nat>, u: Urgency, v: Urgency)
    requires u != v
    ensures WithUrgency(facts, ids, u) !! WithUrgency(facts, ids, v)
  {
  }

  lemma UrgenciesCover(facts: Facts, ids: set<nat>)
    requires ids <= facts.analyses.Keys
    ensures ids == WithUrgency(facts, ids, HIGH) + WithUrgency(facts, ids, MEDIUM) + WithUrgency(facts, ids, LOW)
  {
  }

  lemma UrgenciesAddUp(facts: Facts, ids: set<nat>)
    requires ids <= facts.analyses.Keys
    ensures |ids| == |WithUrgency(facts, ids, HIGH)| + |WithUrgency(facts, ids, MEDIUM)|
                     + |WithUrgency(facts, ids, LOW)|
  {
    hide WithUrgency;
    var a, b, c := WithUrgency(facts, ids, HIGH), WithUrgency(facts, ids, MEDIUM), WithUrgency(facts, ids, LOW);
    UrgenciesCover(facts, ids);
    UrgenciesApart(facts, ids, HIGH, MEDIUM);
    UrgenciesApart(facts, ids, HIGH, LOW);
    UrgenciesApart(facts, ids, MEDIUM, LOW);
    assert a !! b && (a + b) !! c;
  }

  lemma InMonthHasAnalysis(facts: Facts, property: nat, month: Month)
    requires month.Valid()
    ensures InMonth(facts, property, month) <= facts.analyses.Keys
  {
  }

  /** Each figure is the size of what its query saw: no report is counted twice or lost. */
  lemma FiguresCount(s: MonthlyStats, r: Reads, property: nat, month: Month)
    requires month.Valid() && Describes(s, r, property, month)
    ensures s.total == CategorySum(s.byCategory) == |InMonth(r.categories, property, month)|
    ensures UrgencySum(s.byUrgency) == |InMonth(r.urgencies, property, month)|
    ensures s.actionRequired <= |InMonth(r.actions, property, month)|
  {
    hide InCategory;
    hide WithUrgency;
    InMonthHasAnalysis(r.categories, property, month);
    InMonthHasAnalysis(r.urgencies, property, month);
    hide InMonth;
    CategoriesAddUp(r.categories, InMonth(r.categories, property, month));
    UrgenciesAddUp(r.urgencies, InMonth(r.urgencies, property, month));
    Without(InMonth(r.actions, property, month), NeedingAction(r.actions, InMonth(r.actions, property, month)));
  }

  /** The reports of the month that need no action. */
  function Idle(facts: Facts, ids: set<nat>): set<nat> {
    set id | id in ids && id in facts.analyses && !facts.analyses[id].labels.actionRequired
  }

  /** Reports that need action and reports that do not add up to the month's. */
  lemma ActionsComplement(s: MonthlyStats, r: Reads, property: nat, month: Month)
    requires month.Valid() && Describes(s, r, property, month)
    ensures var ids := InMonth(r.actions, property, month); s.actionRequired + |Idle(r.actions, ids)| == |ids|
  {
    InMonthHasAnalysis(r.actions, property, month);
    hide InMonth;
    hide CountsCategories;
    hide CountsUrgencies;
    var ids := InMonth(r.actions, property, month);
    Without(ids, NeedingAction(r.actions, ids));
    assert ids - NeedingAction(r.actions, ids) == Idle(r.actions, ids);
  }

  // ---------- one report more ----------

  /** The tables with one more report. */
  ghost predicate Adds(f: Facts, g: Facts, id: nat) {
    && id !in f.reports && id !in f.analyses && id in g.reports && id in g.analyses
    && g.reports == f.reports[id := g.reports[id]] && g.analyses == f.analyses[id := g.analyses[id]]
  }

  lemma InMonthAdds(f: Facts, g: Facts, id: nat, property: nat, month: Month)
    requires month.Valid() && MonthBounds(month).Ok? && Adds(f, g, id) && g.reports[id].reportedAt.Valid()
    ensures InMonth(g, property, month) ==
            InMonth(f, property, month) + if Counts(g, id, property, month) then {id} else {}
    ensures id !in InMonth(f, property, month)
  {
    BoundsPartition(month, g.reports[id].reportedAt);
    hide MonthBounds;
    hide NotAfter;
  }

  /** The report is one of the property and of the month. */
  predicate Counts(facts: Facts, id: nat, property: nat, month: Month) {
    id in facts.reports && facts.reports[id].property == property && MonthOf(facts.reports[id].reportedAt) == month
  }

  lemma GroupsSame(f: Facts, g: Facts, id: nat, ids: set<nat>)
    requires Adds(f, g, id) && id !in ids
    ensures forall c :: InCategory(g, ids, c) == InCategory(f, ids, c)
    ensures forall u :: WithUrgency(g, ids, u) == WithUrgency(f, ids, u)
    ensures NeedingAction(g, ids) == NeedingAction(f, ids)
  {
    forall c ensures InCategory(g, ids, c) == InCategory(f, ids, c) {
    }
    forall u ensures WithUrgency(g, ids, u) == WithUrgency(f, ids, u) {
    }
  }

  function OneIf(b: bool): nat { if b then 1 else 0 }

  lemma SizesAdd(f: Facts, g: Facts, id: nat, ids: set<nat>, counts: bool)
    requires Adds(f, g, id) && id !in ids
    ensures var more := ids + if counts then {id} else {};
            var labels := g.analyses[id].labels;
            && (forall c :: |InCategory(g, more, c)| == |InCategory(f, ids, c)| + OneIf(counts && labels.category == c))
            && (forall u :: |WithUrgency(g, more, u)| == |WithUrgency(f, ids, u)| + OneIf(counts && labels.urgency == u))
            && |NeedingAction(g, more)| == |NeedingAction(f, ids)| + OneIf(counts && labels.actionRequired)
  {
    GroupsSame(f, g, id, ids);
    hide InCategory;
    hide WithUrgency;
    hide NeedingAction;
    assert ids + {} == ids;
    forall c
      ensures |InCategory(g, ids + {id}, c)| == |InCategory(f, ids, c)| + OneIf(g.analyses[id].labels.category == c)
    {
      CountCategory(g, ids, id, c);
    }
    forall u
      ensures |WithUrgency(g, ids + {id}, u)| == |WithUrgency(f, ids, u)| + OneIf(g.analyses[id].labels.urgency == u)
    {
      CountUrgency(g, ids, id, u);
    }
    CountAction(g, ids, id);
  }

  lemma OneCategory(before: map<Category, nat>, after: map<Category, nat>, counts: bool, category: Category)
    requires forall c :: Get(after, c) == Get(before, c) + OneIf(counts && category == c)
    ensures CategorySum(after) == CategorySum(before) + OneIf(counts)
  {
    hide Get;
    match category { case CLEANING => case EQUIPMENT_FAILURE => case CLAIM => case OTHER => }
  }

  /**
    One report more: if it is of the property and the month, the total goes up by one, its category
    and its urgency do, no other does, and the required actions do exactly if its label says so;
    otherwise every figure stays.
   */
  lemma OneMoreReport(s: MonthlyStats, t: MonthlyStats, f: Facts, g: Facts, id: nat, property: nat, month: Month)
    requires month.Valid() && MonthBounds(month).Ok? && Adds(f, g, id) && g.reports[id].reportedAt.Valid()
    requires Describes(s, Once(f), property, month) && Describes(t, Once(g), property, month)
    ensures var labels, counts := g.analyses[id].labels, Counts(g, id, property, month);
            && t.total == s.total + OneIf(counts)
            && (forall c :: Get(t.byCategory, c) == Get(s.byCategory, c) + OneIf(counts && labels.category == c))
            && (forall u :: Get(t.byUrgency, u) == Get(s.byUrgency, u) + OneIf(counts && labels.urgency == u))
            && t.actionRequired == s.actionRequired + OneIf(counts && labels.actionRequired)
  {
    hide MonthBounds;
    hide InMonth;
    hide Counts;
    hide InCategory;
    hide WithUrgency;
    hide NeedingAction;
    hide Get;
    hide CategorySum;
    InMonthAdds(f, g, id, property, month);
    SizesAdd(f, g, id, InMonth(f, property, month), Counts(g, id, property, month));
    OneCategory(s.byCategory, t.byCategory, Counts(g, id, property, month), g.analyses[id].labels.category);
  }

  /** Rows stay as they are, and others may come. */
  ghost predicate Grows(f: Facts, g: Facts) {
    forall id :: id in f.reports && id in f.analyses ==>
      id in g.reports && id in g.analyses && g.reports[id] == f.reports[id]
  }

  lemma InMonthGrows(f: Facts, g: Facts, property: nat, month: Month)
    requires month.Valid() && Grows(f, g)
    ensures InMonth(f, property, month) <= InMonth(g, property, month)
  {
    hide NotAfter;
    hide MonthBounds;
  }

  /**
    With commits between the queries, the total never exceeds the sum by urgency; the two agree exactly
    if no report of the month came in between, and then, if none came before the third query
    either, required actions are at most the total.
   */
  lemma FiguresAgree(s: MonthlyStats, r: Reads, property: nat, month: Month)
    requires month.Valid() && Describes(s, r, property, month)
    requires Grows(r.categories, r.urgencies) && Grows(r.urgencies, r.actions)
    ensures s.total <= UrgencySum(s.byUrgency)
    ensures s.total == UrgencySum(s.byUrgency) <==>
            InMonth(r.categories, property, month) == InMonth(r.urgencies, property, month)
    ensures InMonth(r.actions, property, month) == InMonth(r.categories, property, month) ==>
              s.actionRequired <= s.total == UrgencySum(s.byUrgency)
  {
    hide Describes;
    hide InMonth;
    FiguresCount(s, r, property, month);
    InMonthGrows(r.categories, r.urgencies, property, month);
    InMonthGrows(r.urgencies, r.actions, property, month);
    hide Grows;
    SubsetSizes(InMonth(r.categories, property, month), InMonth(r.urgencies, property, month));
    SubsetSizes(InMonth(r.urgencies, property, month), InMonth(r.actions, property, month));
  }

  lemma SubsetSizes(a: set<nat>, b: set<nat>)
    requires a <= b
    ensures |a| <= |b| && (|a| == |b| <==> a == b)
  {
    Without(b, a);
    if |a| == |b| {
      assert b - a == {};
    }
  }

  // ---------- the months of a property ----------

  function ReportsOf(facts: Facts, property: nat): set<nat> {
    set id | id in facts.reports && facts.reports[id].property == property
  }

  function ReportsIn(facts: Facts, property: nat, months: set<Month>): set<nat> {
    set id | id in facts.reports && facts.reports[id].property == property
             && MonthOf(facts.reports[id].reportedAt) in months
  }

  predicate Consistent(facts: Facts) {
    && facts.analyses.Keys == facts.reports.Keys
    && forall id :: id in facts.reports ==> facts.reports[id].reportedAt.Valid()
  }

  lemma InMonthIsMonth(facts: Facts, property: nat, month: Month)
    requires month.Valid() && MonthBounds(month).Ok? && Consistent(facts)
    ensures InMonth(facts, property, month) == ReportsIn(facts, property, {month})
  {
    hide MonthBounds;
    hide NotAfter;
    forall id | id in facts.reports
      ensures id in InMonth(facts, property, month) <==> id in ReportsIn(facts, property, {month})
    {
      BoundsPartition(month, facts.reports[id].reportedAt);
    }
  }

  /** Figures of one moment: they agree, and the total is the number of reports of the month. */
  lemma MonthlyFigures(facts: Facts, property: nat, month: Month, s: MonthlyStats)
    requires month.Valid() && MonthBounds(month).Ok? && Consistent(facts)
    requires Describes(s, Once(facts), property, month)
    ensures s.total == |ReportsIn(facts, property, {month})| == CategorySum(s.byCategory) == UrgencySum(s.byUrgency)
    ensures s.actionRequired <= s.total
  {
    hide Describes;
    hide MonthBounds;
    InMonthIsMonth(facts, property, month);
    hide InMonth;
    hide ReportsIn;
    FiguresCount(s, Once(facts), property, month);
  }

  /** The totals of several months. */
  function TotalOver(facts: Facts, property: nat, months: seq<Month>): nat {
    if months == [] then 0 else |ReportsIn(facts, property, {months[0]})| + TotalOver(facts, property, months[1..])
  }

  lemma ReportsSplit(facts: Facts, property: nat, month: Month, rest: set<Month>)
    requires month !in rest
    ensures |ReportsIn(facts, property, {month} + rest)|
         == |ReportsIn(facts, property, {month})| + |ReportsIn(facts, property, rest)|
  {
    var all := ReportsIn(facts, property, {month} + rest);
    var a, b := ReportsIn(facts, property, {month}), ReportsIn(facts, property, rest);
    Without(all, a);
    assert all - a == b;
  }

  /** Distinct months add up to the reports they contain. */
  lemma {:induction false} MonthsAddUp(facts: Facts, property: nat, months: seq<Month>)
    requires forall i, j :: 0 <= i < j < |months| ==> months[i] != months[j]
    ensures TotalOver(facts, property, months) == |ReportsIn(facts, property, set m | m in months)|
  {
    var all := set m | m in months;
    if months == [] {
      assert ReportsIn(facts, property, all) == {};
    } else {
      var rest := set m | m in months[1..];
      MonthsAddUp(facts, property, months[1..]);
      hide ReportsIn;
      assert all == {months[0]} + rest;
      ReportsSplit(facts, property, months[0], rest);
    }
  }

  function Totals(figures: seq<MonthlyStats>): nat {
    if figures == [] then 0 else figures[0].total + Totals(figures[1..])
  }

  /** The figures of several months, computed at one moment. */
  ghost predicate AllDescribe(figures: seq<MonthlyStats>, facts: Facts, property: nat, months: seq<Month>) {
    && |figures| == |months|
    && forall i :: 0 <= i < |months| ==>
         && months[i].Valid() && MonthBounds(months[i]).Ok?
         && Describes(figures[i], Once(facts), property, months[i])
  }

  lemma {:induction false} TotalsAreTotalOver(figures: seq<MonthlyStats>, facts: Facts, property: nat, months: seq<Month>)
    requires Consistent(facts) && AllDescribe(figures, facts, property, months)
    ensures Totals(figures) == TotalOver(facts, property, months)
    decreases |months|
  {
    hide Describes;
    hide MonthBounds;
    hide ReportsIn;
    if months != [] {
      MonthlyFigures(facts, property, months[0], figures[0]);
      TotalsAreTotalOver(figures[1..], facts, property, months[1..]);
    }
  }

  /** The totals computed for distinct months add up to the property's reports, once all their months are in. */
  lemma TotalsAreComplete(figures: seq<MonthlyStats>, facts: Facts, property: nat, months: seq<Month>)
    requires Consistent(facts) && AllDescribe(figures, facts, property, months)
    requires forall i, j :: 0 <= i < j < |months| ==> months[i] != months[j]
    requires forall id :: id in ReportsOf(facts, property) ==> MonthOf(facts.reports[id].reportedAt) in months
    ensures Totals(figures) == |ReportsOf(facts, property)|
  {
    hide AllDescribe;
    TotalsAreTotalOver(figures, facts, property, months);
    MonthsAddUp(facts, property, months);
    assert ReportsIn(facts, property, set m | m in months) == ReportsOf(facts, property);
  }
}

/** The figures of the running system. */
module StatsOfRuns {
  import opened Domain
  import opened Stats
  import Tables
  import P = Pipeline
  import PipelineRuns
  import PipelineSafety
  import LedgerLaws
  import Ingest
  import World

  lemma FromObjectValid(env: P.Env, draft: Draft)
    requires forall o :: o in env.objects ==> env.objects[o].reportedAt.Valid()
    requires LedgerLaws.FromObject(env, draft)
    ensures draft.report.reportedAt.Valid()
  {
  }

  /** Reports and analyses are committed together, so the figures count every report. */
  lemma RunsAreConsistent(env: P.Env, inbox: seq<seq<string>>, steps: seq<World.Step>)
    requires World.Possible(env, World.Initial(inbox), steps)
    requires forall o :: o in env.objects ==> env.objects[o].reportedAt.Valid()
    ensures Consistent(World.Committed(World.Run(env, World.Initial(inbox), steps)).facts)
  {
    hide World.Run;
    hide World.Possible;
    hide LedgerLaws.FromObject;
    hide World.OverridesOk;
    World.RunOk(env, inbox, steps);
    var l := World.Run(env, World.Initial(inbox), steps).pipe.ledger;
    forall id | id in l.facts.reports ensures l.facts.reports[id].reportedAt.Valid() {
      assert LedgerLaws.RowOk(env, l, id);
      var committed := l.history[l.facts.reports[id].sourceKey].analysis;
      FromObjectValid(env, Draft(l.facts.reports[id], committed, l.facts.chunks[id]));
    }
  }

  lemma FollowingGrows(env: P.Env, w: P.State, v: P.State)
    requires LedgerLaws.TablesOk(w.ledger) && PipelineRuns.Follows(w, v)
    ensures Grows(w.ledger.facts, v.ledger.facts)
  {
    forall id | id in w.ledger.facts.reports && id in w.ledger.facts.analyses
      ensures && id in v.ledger.facts.reports && id in v.ledger.facts.analyses
              && v.ledger.facts.reports[id] == w.ledger.facts.reports[id]
    {
      assert PipelineRuns.RowFollows(w.ledger.facts, v.ledger.facts, id);
    }
  }

  lemma TablesOfInv(env: P.Env, w: World.State)
    requires World.Inv(env, w)
    ensures PipelineSafety.Inv(env, w.pipe) && LedgerLaws.TablesOk(w.pipe.ledger)
  {
  }

  /** Between two moments of a run the tables only grow. */
  lemma RunsGrow(env: P.Env, w: World.State, steps: seq<World.Step>)
    requires World.Inv(env, w) && World.Possible(env, w, steps)
    ensures World.Inv(env, World.Run(env, w, steps))
    ensures Grows(World.Committed(w).facts, World.Committed(World.Run(env, w, steps)).facts)
  {
    hide World.Run;
    hide World.Possible;
    hide World.Inv;
    hide P.Run;
    hide P.Possible;
    World.RunKeeps(env, w, steps);
    World.RunOfParts(env, w, steps);
    TablesOfInv(env, w);
    hide PipelineSafety.Inv;
    hide LedgerLaws.TablesOk;
    hide PipelineRuns.Follows;
    PipelineRuns.RunFollows(env, w.pipe, World.AllPipeSteps(steps));
    FollowingGrows(env, w.pipe, World.Run(env, w, steps).pipe);
  }

  /** Figures whose three queries ran at three moments of a run, with anything going on in between. */
  lemma FiguresOfRuns(env: P.Env, inbox: seq<seq<string>>, before: seq<World.Step>, first: seq<World.Step>,
                      second: seq<World.Step>, s: MonthlyStats, property: nat, month: Month)
    requires World.Possible(env, World.Initial(inbox), before)
    requires World.Possible(env, World.Run(env, World.Initial(inbox), before), first)
    requires World.Possible(env, World.Run(env, World.Run(env, World.Initial(inbox), before), first), second)
    requires month.Valid()
    requires var w := World.Run(env, World.Initial(inbox), before);
             var v := World.Run(env, w, first);
             var x := World.Run(env, v, second);
             Describes(s, Reads(World.Committed(w).facts, World.Committed(v).facts, World.Committed(x).facts),
                       property, month)
    ensures var w := World.Run(env, World.Initial(inbox), before);
            var v := World.Run(env, w, first);
            var x := World.Run(env, v, second);
            var a, b, c := InMonth(World.Committed(w).facts, property, month),
                           InMonth(World.Committed(v).facts, property, month),
                           InMonth(World.Committed(x).facts, property, month);
            && s.total <= UrgencySum(s.byUrgency)
            && (s.total == UrgencySum(s.byUrgency) <==> a == b)
            && (a == c ==> s.actionRequired <= s.total == UrgencySum(s.byUrgency))
  {
    hide World.Run;
    hide World.Possible;
    hide World.Inv;
    hide Describes;
    hide InMonth;
    hide Grows;
    World.RunOk(env, inbox, before);
    var w := World.Run(env, World.Initial(inbox), before);
    var v := World.Run(env, w, first);
    RunsGrow(env, w, first);
    RunsGrow(env, v, second);
    FiguresAgree(s, Reads(World.Committed(w).facts, World.Committed(v).facts,
                          World.Committed(World.Run(env, v, second)).facts), property, month);
  }

  /** The tables with one report in them. */
  lemma OneReport(draft: Draft, facts: Facts, month: Month)
    requires facts == Tables.Inserted(Facts(map[], map[], map[]), 1, draft)
    requires month.Valid() && MonthBounds(month).Ok?
    requires draft.report.reportedAt.Valid() && MonthOf(draft.report.reportedAt) == month
    ensures InMonth(facts, draft.report.property, month) == {1}
    ensures InMonth(Facts(map[], map[], map[]), draft.report.property, month) == {}
    ensures draft.analysis.labels.actionRequired ==> NeedingAction(facts, {1}) == {1}
  {
    BoundsPartition(month, draft.report.reportedAt);
    hide MonthBounds;
    hide NotAfter;
    hide Tables.AsStored;
    assert Tables.AsStored(draft.analysis).labels == draft.analysis.labels by { StoredLabels(draft.analysis); }
  }

  lemma StoredLabels(a: Analysis)
    ensures Tables.AsStored(a).labels == a.labels
  {
  }

  /**
    A report committed after the query by category and before the other two: the total misses it, and
    is smaller than the sum by urgency and than the number of required actions.
   */
  lemma FiguresCanDisagree(env: P.Env, o: string, c: P.Classification, s: MonthlyStats, month: Month)
    returns (steps: seq<P.Step>)
    requires o in env.objects && P.InRange(c) && c.labels.actionRequired
    requires month.Valid() && MonthBounds(month).Ok?
    requires env.objects[o].reportedAt.Valid() && MonthOf(env.objects[o].reportedAt) == month
    ensures P.Possible(env, P.Initial([[o]]), steps)
    ensures var before, after := P.Initial([[o]]).ledger.facts, P.Run(env, P.Initial([[o]]), steps).ledger.facts;
            Describes(s, Reads(before, after, after), env.objects[o].property, month) ==>
              s.total == 0 && UrgencySum(s.byUrgency) == 1 && s.actionRequired == 1
  {
    hide P.Run;
    hide P.Possible;
    steps := Ingest.CanBeCommitted(env, o, c);
    var before, after := P.Initial([[o]]).ledger.facts, P.Run(env, P.Initial([[o]]), steps).ledger.facts;
    OneReport(P.DraftFor(env, env.objects[o], c), after, month);
    hide Describes;
    hide InMonth;
    hide MonthBounds;
    var property := env.objects[o].property;
    if Describes(s, Reads(before, after, after), property, month) {
      FiguresCount(s, Reads(before, after, after), property, month);
      ActionsOf(s, Reads(before, after, after), property, month);
    }
  }

  lemma ActionsOf(s: MonthlyStats, r: Reads, property: nat, month: Month)
    requires month.Valid() && Describes(s, r, property, month)
    ensures s.actionRequired == |NeedingAction(r.actions, InMonth(r.actions, property, month))|
  {
  }
}
