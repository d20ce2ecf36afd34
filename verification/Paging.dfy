/**
  Keyset paging (app/infra/db/repositories.py, app/services/admin.py, app/api/routers/admin_ui.py,
  app/api/routers/reports.py): descending ids, one page per request, while the tables change.
 */
module Paging {
  import opened Wrappers
  import opened Domain
  import opened Tables

  // ---------- the query ----------

  datatype Query =
    | List(property: Option<nat>, category: Option<Category>, urgency: Option<Urgency>, status: Option<AnalysisStatus>)
    | Queue

  /** What one request finds: the tables, and the properties the caller may see. */
  datatype Snapshot = Snapshot(facts: Facts, permitted: set<nat>)

  predicate Picks<T(==)>(filter: Option<T>, value: T) {
    filter.Some? ==> value == filter.value
  }

  predicate Matches(s: Snapshot, q: Query, id: nat) {
    && id in s.facts.reports && id in s.facts.analyses
    && s.facts.reports[id].property in s.permitted
    && var a := s.facts.analyses[id];
    match q
    case List(property, category, urgency, status) =>
      && Picks(property, s.facts.reports[id].property)
      && Picks(category, a.labels.category) && Picks(urgency, a.labels.urgency) && Picks(status, a.status)
    case Queue => a.status == NEEDS_REVIEW
  }

  predicate Before(cursor: Option<nat>, id: nat) {
    cursor.Some? ==> id < cursor.value
  }

  function Hits(s: Snapshot, q: Query, cursor: Option<nat>): set<nat> {
    set id | id in s.facts.reports && Matches(s, q, id) && Before(cursor, id)
  }

  predicate Falling(s: seq<nat>) {
    forall i, j :: 0 <= i < j < |s| ==> s[i] > s[j]
  }

  /** `ORDER BY id DESC` */
  ghost function Descending(ids: set<nat>): seq<nat> {
    if ids == {} then [] else [Max(ids)] + Descending(ids - {Max(ids)})
  }

  lemma {:induction false} DescendingSorts(ids: set<nat>)
    ensures |Descending(ids)| == |ids|
    ensures forall id :: id in Descending(ids) <==> id in ids
    ensures Falling(Descending(ids))
  {
    if ids != {} {
      var top := Max(ids);
      var rest := Descending(ids - {top});
      DescendingSorts(ids - {top});
      FallingConcat([top], rest);
    }
  }

  lemma FallingConcat(a: seq<nat>, b: seq<nat>)
    requires Falling(a) && Falling(b) && forall x, y :: x in a && y in b ==> x > y
    ensures Falling(a + b)
  {
    var s := a + b;
    forall i, j | 0 <= i < j < |s| ensures s[i] > s[j] {
      if i < |a| <= j {
        assert s[i] == a[i] && a[i] in a && s[j] == b[j - |a|] && b[j - |a|] in b;
      } else if j < |a| {
        assert s[i] == a[i] && s[j] == a[j];
      } else {
        assert s[i] == b[i - |a|] && s[j] == b[j - |a|];
      }
    }
  }

  function Take<T>(s: seq<T>, n: nat): seq<T> {
    if n < |s| then s[..n] else s
  }

  /** `list_reports` and `review_queue` */
  ghost function Rows(s: Snapshot, q: Query, cursor: Option<nat>, limit: nat): seq<nat> {
    if s.permitted == {} then [] else Take(Descending(Hits(s, q, cursor)), limit)
  }

  const DEFAULT_PAGE_SIZE: nat := 20
  const MAX_PAGE_SIZE: nat := 100

  function Clamp(limit: int): nat {
    if limit < 1 then DEFAULT_PAGE_SIZE else if limit > MAX_PAGE_SIZE then MAX_PAGE_SIZE else limit
  }

  lemma RowsAre(s: Snapshot, q: Query, cursor: Option<nat>, limit: nat)
    ensures Rows(s, q, cursor, limit) == Take(Descending(Hits(s, q, cursor)), limit)
  {
    if s.permitted == {} {
      forall id ensures id !in Hits(s, q, cursor) { NoneMatches(s, q, id); }
      var hits := Hits(s, q, cursor);
      assert hits == {};
      assert Descending(hits) == [];
    }
  }

  lemma NoneMatches(s: Snapshot, q: Query, id: nat)
    requires s.permitted == {}
    ensures !Matches(s, q, id)
  {
  }

  // ---------- the two page rules ----------

  datatype Page = Page(items: seq<nat>, next: Option<nat>)

  const PAGE_SIZE: nat := 20

  /** The admin page: ask for one row more, to know whether there is a next page. */
  function UiRule(rows: seq<nat>): Page {
    var items := Take(rows, PAGE_SIZE);
    Page(items, if |rows| > PAGE_SIZE && items != [] then Some(items[|items| - 1]) else None)
  }

  ghost function UiPage(s: Snapshot, q: Query, cursor: Option<nat>): Page {
    UiRule(Rows(s, q, cursor, Clamp(PAGE_SIZE + 1)))
  }

  /** The API: a next page if this one is as long as the `limit` that was asked for, not the clamped one. */
  function ApiRule(rows: seq<nat>, limit: int): Result<Page, Error> {
    if |rows| == limit then
      if rows == [] then Err(ValueError) else Ok(Page(rows, Some(rows[|rows| - 1])))
    else Ok(Page(rows, None))
  }

  ghost function ApiPage(s: Snapshot, q: Query, cursor: Option<nat>, limit: int): Result<Page, Error> {
    ApiRule(Rows(s, q, cursor, Clamp(limit)), limit)
  }

  /** The page is made of hits, and the next one starts where it ends: no hit gets lost. */
  ghost predicate Covers(hits: set<nat>, page: Page) {
    && Falling(page.items)
    && (forall id :: id in page.items ==> id in hits)
    && (page.next.Some? ==> page.items != [] && page.next.value == page.items[|page.items| - 1])
    && (forall id :: id in hits ==> id in page.items || (page.next.Some? && id < page.next.value))
  }

  lemma WholeCovers(hits: set<nat>)
    ensures Covers(hits, Page(Descending(hits), None))
  {
    hide Descending;
    DescendingSorts(hits);
  }

  lemma PrefixCovers(hits: set<nat>, n: nat)
    requires 0 < n <= |hits|
    ensures |Descending(hits)| == |hits|
    ensures Covers(hits, Page(Descending(hits)[..n], Some(Descending(hits)[n - 1])))
  {
    hide Descending;
    DescendingSorts(hits);
    var all := Descending(hits);
    forall id | id in hits ensures id in all[..n] || id < all[n - 1] {
      var i :| 0 <= i < |all| && all[i] == id;
      assert i < n ==> all[..n][i] == id;
    }
  }

  lemma UiRuleCovers(hits: set<nat>)
    ensures Covers(hits, UiRule(Take(Descending(hits), PAGE_SIZE + 1)))
  {
    hide Covers;
    hide Descending;
    DescendingSorts(hits);
    hide Falling;
    var all := Descending(hits);
    if |all| > PAGE_SIZE {
      PrefixCovers(hits, PAGE_SIZE);
      assert all[..PAGE_SIZE + 1][..PAGE_SIZE] == all[..PAGE_SIZE];
    } else {
      WholeCovers(hits);
    }
  }

  /** The admin page loses no row. */
  lemma UiCovers(s: Snapshot, q: Query, cursor: Option<nat>)
    ensures Covers(Hits(s, q, cursor), UiPage(s, q, cursor))
  {
    hide Covers;
    hide Rows;
    hide Hits;
    hide Descending;
    RowsAre(s, q, cursor, PAGE_SIZE + 1);
    UiRuleCovers(Hits(s, q, cursor));
  }

  lemma ApiRuleCovers(hits: set<nat>, limit: nat)
    requires limit > 0
    ensures var page := ApiRule(Take(Descending(hits), limit), limit); page.Ok? && Covers(hits, page.value)
  {
    hide Covers;
    hide Descending;
    DescendingSorts(hits);
    hide Falling;
    var all := Descending(hits);
    if |all| >= limit {
      PrefixCovers(hits, limit);
      assert all[..|all|] == all;
    } else {
      WholeCovers(hits);
    }
  }

  ghost predicate ApiCovers(s: Snapshot, q: Query, cursor: Option<nat>, limit: int) {
    ApiPage(s, q, cursor, limit).Ok? && Covers(Hits(s, q, cursor), ApiPage(s, q, cursor, limit).value)
  }

  // ---------- what a request finds, and how much of it a page shows ----------

  /** Each filter picks the reports whose row names its value, and the others stay as they are. */
  lemma FiltersPick(s: Snapshot, q: Query, id: nat, p: nat, c: Category, u: Urgency, t: AnalysisStatus)
    requires q.List?
    ensures q.property == None ==>
              (Matches(s, q.(property := Some(p)), id) <==> Matches(s, q, id) && s.facts.reports[id].property == p)
    ensures q.category == None ==>
              (Matches(s, q.(category := Some(c)), id) <==>
                 Matches(s, q, id) && s.facts.analyses[id].labels.category == c)
    ensures q.urgency == None ==>
              (Matches(s, q.(urgency := Some(u)), id) <==>
                 Matches(s, q, id) && s.facts.analyses[id].labels.urgency == u)
    ensures q.status == None ==>
              (Matches(s, q.(status := Some(t)), id) <==> Matches(s, q, id) && s.facts.analyses[id].status == t)
    ensures Matches(s, List(None, None, None, None), id) <==>
              && id in s.facts.reports && id in s.facts.analyses && s.facts.reports[id].property in s.permitted
    ensures Matches(s, Queue, id) <==> Matches(s, List(None, None, None, Some(NEEDS_REVIEW)), id)
  {
  }

  /** The hits of a list without a category filter are those of its four categories, each in one of them. */
  lemma CategoriesPartition(s: Snapshot, q: Query, cursor: Option<nat>)
    requires q.List? && q.category == None
    ensures |Hits(s, q, cursor)| ==
            |Hits(s, q.(category := Some(CLEANING)), cursor)|
            + |Hits(s, q.(category := Some(EQUIPMENT_FAILURE)), cursor)|
            + |Hits(s, q.(category := Some(CLAIM)), cursor)| + |Hits(s, q.(category := Some(OTHER)), cursor)|
    ensures forall c, id :: id in Hits(s, q.(category := Some(c)), cursor) ==>
              s.facts.analyses[id].labels.category == c
  {
    var whole := Hits(s, q, cursor);
    var part := (c: Category) => Hits(s, q.(category := Some(c)), cursor);
    hide Hits;
    forall id, c | id in part(c)
      ensures id in s.facts.analyses && id in whole && s.facts.analyses[id].labels.category == c
    {
      HitHasAnalysis(s, q.(category := Some(c)), cursor, id);
      InCategory(s, q, cursor, id, c);
    }
    forall id | id in whole ensures exists c :: id in part(c) {
      HitHasAnalysis(s, q, cursor, id);
      InCategory(s, q, cursor, id, s.facts.analyses[id].labels.category);
      assert id in part(s.facts.analyses[id].labels.category);
    }
    FourParts(whole, part);
  }

  lemma InCategory(s: Snapshot, q: Query, cursor: Option<nat>, id: nat, c: Category)
    requires q.List? && q.category == None && id in s.facts.analyses
    ensures id in Hits(s, q.(category := Some(c)), cursor) <==>
            id in Hits(s, q, cursor) && s.facts.analyses[id].labels.category == c
  {
  }

  lemma HitHasAnalysis(s: Snapshot, q: Query, cursor: Option<nat>, id: nat)
    ensures id in Hits(s, q, cursor) ==> id in s.facts.analyses
  {
  }

  lemma FourParts(whole: set<nat>, part: Category -> set<nat>)
    requires forall id :: id in whole <==> exists c :: id in part(c)
    requires forall id, c, d :: id in part(c) && id in part(d) ==> c == d
    ensures |whole| == |part(CLEANING)| + |part(EQUIPMENT_FAILURE)| + |part(CLAIM)| + |part(OTHER)|
  {
    var a, b, c, d := part(CLEANING), part(EQUIPMENT_FAILURE), part(CLAIM), part(OTHER);
    assert a !! b && a + b !! c && a + b + c !! d;
    forall id ensures id in whole <==> id in a + b + c + d {
      if x :| id in part(x) {
        match x { case CLEANING => case EQUIPMENT_FAILURE => case CLAIM => case OTHER => }
      }
    }
    assert whole == a + b + c + d;
  }

  function Least(a: nat, b: nat): nat { if a < b then a else b }

  /**
    How many rows a request shows: up to 20 on the admin page, with a next page exactly if there are
    more; in the API up to the limit, but 20 for a limit below 1, and never more than 100.
   */
  lemma PageSizes(s: Snapshot, q: Query, cursor: Option<nat>, limit: int)
    ensures |UiPage(s, q, cursor).items| == Least(20, |Hits(s, q, cursor)|)
    ensures UiPage(s, q, cursor).next.Some? <==> |Hits(s, q, cursor)| > 20
    ensures var page := ApiPage(s, q, cursor, limit);
            page.Ok? ==> |page.value.items| == Least(if limit < 1 then 20 else if limit > 100 then 100 else limit,
                                                     |Hits(s, q, cursor)|)
  {
    hide Hits;
    hide Rows;
    hide Descending;
    RowsAre(s, q, cursor, PAGE_SIZE + 1);
    RowsAre(s, q, cursor, Clamp(limit));
    DescendingSorts(Hits(s, q, cursor));
  }

  // ---------- exactly when the API rule works ----------

  function Ids(n: nat): set<nat> {
    if n == 0 then {} else Ids(n - 1) + {n}
  }

  lemma {:induction false} IdsAre(n: nat)
    ensures |Ids(n)| == n && forall id :: id in Ids(n) <==> 1 <= id <= n
  {
    if n > 0 {
      IdsAre(n - 1);
    }
  }

  /** A table with `n` unreviewed reports of one property. */
  function Table(n: nat): Snapshot {
    Snapshot(Facts(map id | id in Ids(n) :: Report(1, "", Instant(2025, 1, 1, 0), ""),
                   map id | id in Ids(n) :: Analysis(Labels(OTHER, LOW, false), "", 0.0, NEEDS_REVIEW),
                   map[]), {1})
  }

  lemma TableHits(n: nat)
    ensures Hits(Table(n), Queue, None) == Ids(n)
  {
    hide Ids;
  }

  lemma ShortPageMisses(hits: set<nat>, n: nat)
    requires n < |hits|
    ensures !Covers(hits, Page(Take(Descending(hits), n), None))
  {
    hide Descending;
    DescendingSorts(hits);
    var all := Descending(hits);
    assert all[n] in hits;
    assert forall i :: 0 <= i < n ==> all[..n][i] == all[i] > all[n];
  }

  /** With any other limit, a hundred and one rows are cut short and no next page is offered. */
  lemma ApiCutsShort(limit: int)
    requires !(1 <= limit <= MAX_PAGE_SIZE)
    ensures !ApiCovers(Table(101), Queue, None, limit)
  {
    hide Table;
    hide Ids;
    hide Hits;
    hide Covers;
    hide Rows;
    hide Descending;
    TableHits(101);
    IdsAre(101);
    DescendingSorts(Ids(101));
    hide Falling;
    RowsAre(Table(101), Queue, None, Clamp(limit));
    ShortPageMisses(Ids(101), Clamp(limit));
  }

  /** Every API page, on every table, is complete exactly if 1 <= limit <= 100. */
  lemma ApiCompleteExactly(limit: int)
    ensures (forall s, q, cursor :: ApiCovers(s, q, cursor, limit)) <==> 1 <= limit <= MAX_PAGE_SIZE
  {
    if 1 <= limit <= MAX_PAGE_SIZE {
      forall s, q, cursor ensures ApiCovers(s, q, cursor, limit) {
        hide Covers;
        hide Rows;
        hide Hits;
        hide Descending;
        RowsAre(s, q, cursor, limit);
        ApiRuleCovers(Hits(s, q, cursor), limit);
      }
    } else {
      hide ApiCovers;
      ApiCutsShort(limit);
    }
  }

  /** The request fails exactly for limit 0 and an empty page. */
  lemma ApiFailsExactly(s: Snapshot, q: Query, cursor: Option<nat>, limit: int)
    ensures ApiPage(s, q, cursor, limit).Err? <==> limit == 0 && Hits(s, q, cursor) == {}
  {
    hide Hits;
    hide Rows;
    hide Descending;
    RowsAre(s, q, cursor, Clamp(limit));
    DescendingSorts(Hits(s, q, cursor));
  }

  // ---------- walks ----------

  datatype Rule = Ui | Api(limit: int)

  predicate Working(rule: Rule) {
    rule.Api? ==> 1 <= rule.limit <= MAX_PAGE_SIZE
  }

  ghost function PageOf(rule: Rule, s: Snapshot, q: Query, cursor: Option<nat>): Result<Page, Error> {
    match rule
    case Ui => Ok(UiPage(s, q, cursor))
    case Api(limit) => ApiPage(s, q, cursor, limit)
  }

  lemma PageCovers(rule: Rule, s: Snapshot, q: Query, cursor: Option<nat>)
    requires Working(rule)
    ensures PageOf(rule, s, q, cursor).Ok? && Covers(Hits(s, q, cursor), PageOf(rule, s, q, cursor).value)
  {
    hide Covers;
    hide Hits;
    hide Rows;
    match rule
    case Ui => UiCovers(s, q, cursor);
    case Api(limit) =>
      ApiCompleteExactly(limit);
      assert ApiCovers(s, q, cursor, limit);
  }

  /** Pages seen one after the other, each on the tables of its moment. */
  ghost predicate Walk(rule: Rule, snaps: seq<Snapshot>, q: Query, cursor: Option<nat>, pages: seq<Page>)
    decreases |pages|
  {
    |snaps| == |pages| && (pages != [] ==>
      && PageOf(rule, snaps[0], q, cursor) == Ok(pages[0])
      && if pages[0].next.None? then |pages| == 1 else Walk(rule, snaps[1..], q, pages[0].next, pages[1..]))
  }

  /** The last page offers no next one. */
  predicate Finished(pages: seq<Page>) {
    pages != [] && pages[|pages| - 1].next.None?
  }

  function Shown(pages: seq<Page>): seq<nat> {
    if pages == [] then [] else pages[0].items + Shown(pages[1..])
  }

  lemma FallingLast(s: seq<nat>)
    requires Falling(s) && s != []
    ensures forall x :: x in s ==> x >= s[|s| - 1]
  {
  }

  lemma {:induction false} ShownBelow(rule: Rule, snaps: seq<Snapshot>, q: Query, cursor: Option<nat>, pages: seq<Page>)
    requires Working(rule) && Walk(rule, snaps, q, cursor, pages)
    ensures forall id :: id in Shown(pages) ==> Before(cursor, id)
    ensures Falling(Shown(pages))
    decreases |pages|
  {
    hide Hits;
    hide Falling;
    hide PageOf;
    if pages == [] {
      FallingEmpty();
    } else {
      var first := pages[0].items;
      PageCovers(rule, snaps[0], q, cursor);
      forall id | id in first ensures Before(cursor, id) {
        HitIsBefore(snaps[0], q, cursor, id);
      }
      if pages[0].next.Some? {
        ShownBelow(rule, snaps[1..], q, pages[0].next, pages[1..]);
        FallingLast(first);
        assert first[|first| - 1] in first && Before(cursor, first[|first| - 1]);
        FallingConcat(first, Shown(pages[1..]));
      } else {
        assert pages[1..] == [] && Shown(pages) == first;
      }
    }
  }

  lemma FallingEmpty()
    ensures Falling([])
  {
  }

  lemma HitIsBefore(s: Snapshot, q: Query, cursor: Option<nat>, id: nat)
    requires id in Hits(s, q, cursor)
    ensures Before(cursor, id) && Matches(s, q, id)
  {
  }

  lemma {:induction false} ShownMatched(rule: Rule, snaps: seq<Snapshot>, q: Query, cursor: Option<nat>,
                                        pages: seq<Page>, id: nat)
    requires Working(rule) && Walk(rule, snaps, q, cursor, pages) && id in Shown(pages)
    ensures exists s :: s in snaps && Matches(s, q, id)
    decreases |pages|
  {
    hide Matches;
    hide PageOf;
    PageCovers(rule, snaps[0], q, cursor);
    if id in pages[0].items {
      HitIsBefore(snaps[0], q, cursor, id);
    } else {
      ShownMatched(rule, snaps[1..], q, pages[0].next, pages[1..], id);
    }
  }

  lemma {:induction false} ShownAll(rule: Rule, snaps: seq<Snapshot>, q: Query, cursor: Option<nat>,
                                        pages: seq<Page>, id: nat)
    requires Working(rule) && Walk(rule, snaps, q, cursor, pages) && Finished(pages)
    requires Before(cursor, id) && forall s :: s in snaps ==> Matches(s, q, id)
    ensures id in Shown(pages)
    decreases |pages|
  {
    hide Matches;
    hide PageOf;
    PageCovers(rule, snaps[0], q, cursor);
    IsHit(snaps[0], q, cursor, id);
    if id !in pages[0].items {
      ShownAll(rule, snaps[1..], q, pages[0].next, pages[1..], id);
    }
  }

  lemma IsHit(s: Snapshot, q: Query, cursor: Option<nat>, id: nat)
    requires Before(cursor, id) && Matches(s, q, id)
    ensures id in Hits(s, q, cursor)
  {
  }

  /**
    A finished walk shows ids in strictly descending order, so none twice; every row that matched
    throughout, exactly once; and nothing that did not match on some page. In between, rows may come,
    go and be overridden.
   */
  lemma WalkIsComplete(rule: Rule, snaps: seq<Snapshot>, q: Query, pages: seq<Page>)
    requires Working(rule) && Walk(rule, snaps, q, None, pages) && Finished(pages)
    ensures Falling(Shown(pages))
    ensures forall id :: (forall s :: s in snaps ==> Matches(s, q, id)) ==> multiset(Shown(pages))[id] == 1
    ensures forall id :: id in Shown(pages) ==> exists s :: s in snaps && Matches(s, q, id)
  {
    hide Matches;
    ShownBelow(rule, snaps, q, None, pages);
    forall id | forall s :: s in snaps ==> Matches(s, q, id) ensures multiset(Shown(pages))[id] == 1 {
      ShownAll(rule, snaps, q, None, pages, id);
      FallingOnce(Shown(pages), id);
    }
    forall id | id in Shown(pages) ensures exists s :: s in snaps && Matches(s, q, id) {
      ShownMatched(rule, snaps, q, None, pages, id);
    }
  }

  lemma {:induction false} FallingOnce(s: seq<nat>, id: nat)
    requires Falling(s) && id in s
    ensures multiset(s)[id] == 1
  {
    assert s == [s[0]] + s[1..];
    if s[0] == id {
      assert id !in s[1..];
    } else {
      FallingOnce(s[1..], id);
    }
  }

  /** Every page moves the cursor down, so a walk from a cursor ends. */
  lemma {:induction false} WalkEnds(rule: Rule, snaps: seq<Snapshot>, q: Query, cursor: nat, pages: seq<Page>)
    requires Working(rule) && Walk(rule, snaps, q, Some(cursor), pages)
    ensures |pages| <= cursor + 1
    decreases |pages|
  {
    hide Matches;
    hide PageOf;
    if pages != [] && pages[0].next.Some? {
      PageCovers(rule, snaps[0], q, Some(cursor));
      HitIsBefore(snaps[0], q, Some(cursor), pages[0].next.value);
      WalkEnds(rule, snaps[1..], q, pages[0].next.value, pages[1..]);
    }
  }

  /** From the first page on: one page, and then as many as the first cursor allows. */
  lemma WalkEndsFromStart(rule: Rule, snaps: seq<Snapshot>, q: Query, pages: seq<Page>)
    requires Working(rule) && Walk(rule, snaps, q, None, pages)
    ensures |pages| <= 1 + if pages != [] && pages[0].next.Some? then pages[0].next.value + 1 else 0
    ensures pages != [] && pages[0].next.Some? ==> exists id :: id in Hits(snaps[0], q, None) && pages[0].next == Some(id)
  {
    hide Matches;
    hide PageOf;
    if pages != [] && pages[0].next.Some? {
      PageCovers(rule, snaps[0], q, None);
      WalkEnds(rule, snaps[1..], q, pages[0].next.value, pages[1..]);
    }
  }
}

/** The review queue of the running system. */
module ReviewQueue {
  import opened Domain
  import opened Paging
  import opened Singles
  import Ingest
  import P = Pipeline
  import World

  /**
    The queue is about the permitted reports that the classifier put below the threshold and that
    nobody has overridden.
   */
  lemma QueueHolds(env: P.Env, inbox: seq<seq<string>>, steps: seq<World.Step>, permitted: set<nat>, id: nat)
    requires World.Possible(env, World.Initial(inbox), steps)
    ensures var w := World.Run(env, World.Initial(inbox), steps);
            var db := World.Committed(w);
            Matches(Snapshot(db.facts, permitted), Queue, id) <==>
              && id in db.facts.reports && db.facts.reports[id].property in permitted
              && db.facts.reports[id].sourceKey in w.pipe.ledger.history
              && World.Judged(w, id).confidence < env.threshold
              && World.LastOverride(db.audit, id).None?
  {
    hide World.Run;
    hide World.Possible;
    hide World.LastOverride;
    var db := World.Committed(World.Run(env, World.Initial(inbox), steps));
    if id in db.facts.reports {
      World.QueueIsUnreviewed(env, inbox, steps, id);
    }
  }

  // ---------- the stored number does not decide ----------

  /**
    For every object and every classification between the threshold and its edge there is a run after
    which the report's status and its stored number disagree.
   */
  lemma NumberMisleads(env: P.Env, o: string, c: P.Classification) returns (steps: seq<P.Step>)
    requires o in env.objects && P.InRange(c) && Between(env.threshold, c.confidence)
    ensures P.Possible(env, P.Initial([[o]]), steps)
    ensures var analyses := P.Run(env, P.Initial([[o]]), steps).ledger.facts.analyses;
            && 1 in analyses
            && (analyses[1].status == NEEDS_REVIEW <==> !(analyses[1].confidence < env.threshold))
  {
    hide P.Run;
    hide P.Possible;
    hide Single;
    hide Between;
    steps := Ingest.CanBeCommitted(env, o, c);
    VerdictChanges(env.threshold, c.confidence);
  }

  /** Such numbers: 0.95 at 0.95 and 0.9 at 0.9 are stored below, and 0.849999999 at 0.85 is not. */
  lemma MisleadingNumbers()
    ensures Between(0.95, 0.95) && Single(0.95) < 0.95
    ensures Between(0.9, 0.9) && Single(0.9) < 0.9
    ensures Between(0.85, 0.849999999) && Single(0.849999999) > 0.85
  {
    hide Rounded;
    hide Halvings;
    EdgeOf(0.95, 15938356);
    EdgeOf(0.9, 15099495);
    EdgeOf(0.85, 14260634);
    VerdictChanges(0.95, 0.95);
    VerdictChanges(0.9, 0.9);
    AboveHalf(0.849999999);
  }

  lemma EdgeOf(t: real, k: int)
    requires k as real - 1.0 < t * SCALE <= k as real
    requires t > 0.5
    ensures StoredEdge(t) == (k as real - 0.5) / SCALE
    ensures StoredEdgeIsBelow(t) <==> k % 2 == 1
  {
  }

  lemma AboveHalf(x: real)
    requires x >= 0.5
    ensures Single(x) == Grid(x)
  {
    hide Grid;
    hide Halvings;
  }
}
