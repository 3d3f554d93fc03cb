/** The versioned cache of the published-events list, with every reader's and writer's steps interleaved. */
module EventsCache {
  import opened Tables
  import opened OtpStore
  import opened EventsKey

  const EVENTS_CACHE_TTL: int := 600

  datatype EventListing = EventListing(organizer: Id, venue: Id, status: EventStatus, title: string, startTime: int,
      banner: Option<string>)

  datatype Page = Page(items: seq<EventListing>, page: Positive, limit: Positive, total: nat, totalPages: Positive)

  /**
   * The list query without its paging: any function of the published rows and the filters, the venue rows being fixed.
   */
  type Select = (map<Id, EventListing>, Filters) -> seq<EventListing>

  function Listed(rows: map<Id, EventListing>): map<Id, EventListing> {
    map e | e in rows && rows[e].status == Published :: rows[e]
  }

  function Upto(all: seq<EventListing>, n: nat): seq<EventListing> {
    if n <= |all| then all[..n] else all
  }

  /** OFFSET skip LIMIT limit. */
  function Slice(all: seq<EventListing>, skip: nat, limit: nat): seq<EventListing> {
    if skip <= |all| then Upto(all[skip..], limit) else []
  }

  function PagesFor(total: nat, limit: Positive): Positive {
    if total == 0 then 1 else (total + limit - 1) / limit
  }

  /** The answer a direct query gives. */
  function ListPage(select: Select, published: map<Id, EventListing>, query: Query): Page {
    var all := select(published, query.filters);
    var page, limit := PageOf(query), LimitOf(query);
    assert (page - 1) * limit >= 0;
    Page(Slice(all, (page - 1) * limit, limit), page, limit, |all|, PagesFor(|all|, limit))
  }

  // ---------------------------------------------------------------- paging

  /** The items of pages 1 to n, one after the other. */
  function FirstPages(all: seq<EventListing>, limit: Positive, n: nat): seq<EventListing> {
    if n == 0 then [] else FirstPages(all, limit, n - 1) + Slice(all, (n - 1) * limit, limit)
  }

  lemma {:induction false} FirstPagesAre(all: seq<EventListing>, limit: Positive, n: nat)
    ensures n * limit >= 0 && FirstPages(all, limit, n) == Upto(all, n * limit)
  {
    if n > 0 {
      FirstPagesAre(all, limit, n - 1);
      assert n * limit == (n - 1) * limit + limit;
    }
  }

  lemma PagesForEnough(total: nat, limit: Positive)
    ensures PagesFor(total, limit) * limit >= total
    ensures total > 0 ==> (PagesFor(total, limit) - 1) * limit < total
  {
    if total > 0 {
      var n := PagesFor(total, limit);
      assert total + limit - 1 == n * limit + (total + limit - 1) % limit;
      assert (n - 1) * limit == n * limit - limit;
    }
  }

  /** The query as sent for page p. */
  function AtPage(query: Query, p: Positive): Query {
    query.(page := Some(p))
  }

  /** The items answered to a client that asks for pages 1 to n, one after the other. */
  function ItemsRead(select: Select, published: map<Id, EventListing>, query: Query, n: nat): seq<EventListing> {
    if n == 0 then []
    else ItemsRead(select, published, query, n - 1) + ListPage(select, published, AtPage(query, n)).items
  }

  lemma {:induction false} ItemsReadAre(select: Select, published: map<Id, EventListing>, query: Query, n: nat)
    ensures ItemsRead(select, published, query, n) == FirstPages(select(published, query.filters), LimitOf(query), n)
  {
    if n > 0 { ItemsReadAre(select, published, query, n - 1); }
  }

  lemma FirstPagesCover(all: seq<EventListing>, limit: Positive)
    ensures FirstPages(all, limit, PagesFor(|all|, limit)) == all
    ensures PagesFor(|all|, limit) > 1 ==> FirstPages(all, limit, PagesFor(|all|, limit) - 1) != all
  {
    var n: nat := PagesFor(|all|, limit);
    PagesForEnough(|all|, limit);
    FirstPagesAre(all, limit, n);
    FirstPagesAre(all, limit, n - 1);
  }

  /**
   * Asking for pages 1 to totalPages gives every listed event once and in order, and asking for fewer does not, unless
   * there is one page only.
   */
  lemma PagesCoverListing(select: Select, published: map<Id, EventListing>, query: Query)
    ensures var all := select(published, query.filters);
            var n := ListPage(select, published, query).totalPages;
            && ItemsRead(select, published, query, n) == all
            && (n > 1 ==> ItemsRead(select, published, query, n - 1) != all)
  {
    var all := select(published, query.filters);
    var n: nat := ListPage(select, published, query).totalPages;
    assert n == PagesFor(|all|, LimitOf(query));
    FirstPagesCover(all, LimitOf(query));
    ItemsReadAre(select, published, query, n);
    ItemsReadAre(select, published, query, n - 1);
  }

  lemma SliceHolds(all: seq<EventListing>, skip: nat, limit: nat)
    ensures ItemsFrom(all, Slice(all, skip, limit), skip, limit)
  {
  }

  /**
   * What a page is: page 1 of 20 unless asked for, with the entries from (page - 1) * limit on, up to limit of them.
   */
  lemma PageHolds(select: Select, published: map<Id, EventListing>, query: Query)
    ensures var (all, answer) := (select(published, query.filters), ListPage(select, published, query));
            && answer.page == (if query.page.Some? then query.page.value else 1)
            && answer.limit == (if query.limit.Some? then query.limit.value else 20)
            && answer.total == |all|
            && ItemsFrom(all, answer.items, (answer.page - 1) * answer.limit, answer.limit)
  {
    ItemsAre(select, published, query);
  }

  lemma ItemsAre(select: Select, published: map<Id, EventListing>, query: Query)
    ensures var (all, answer) := (select(published, query.filters), ListPage(select, published, query));
            ItemsFrom(all, answer.items, (PageOf(query) - 1) * LimitOf(query), answer.limit)
  {
    var skip: int := (PageOf(query) - 1) * LimitOf(query);
    assert skip >= 0;
    SliceHolds(select(published, query.filters), skip, LimitOf(query));
  }

  /** The items are the entries from the given one on, up to `limit` of them. */
  predicate ItemsFrom(all: seq<EventListing>, items: seq<EventListing>, first: int, limit: int) {
    && |items| == (if |all| <= first then 0 else if |all| - first < limit then |all| - first else limit)
    && forall j :: 0 <= j < |items| ==> 0 <= first + j < |all| && items[j] == all[first + j]
  }

  /** totalPages is the least number of pages, at least one, that has room for all entries. */
  lemma TotalPagesIs(select: Select, published: map<Id, EventListing>, query: Query)
    ensures var answer := ListPage(select, published, query);
            && answer.total <= answer.totalPages * answer.limit
            && (answer.totalPages > 1 ==> (answer.totalPages - 1) * answer.limit < answer.total)
  {
    PagesForEnough(|select(published, query.filters)|, LimitOf(query));
  }

  // ---------------------------------------------------------------- the state machine

  /** A list request: version read, page missed, query run, answered. It keeps the version it read first. */
  datatype Reader =
    | Asked(version: nat, query: Query)
    | Missed(version: nat, query: Query)
    | Queried(version: nat, query: Query, page: Page)
    | Answered(version: nat, query: Query, page: Page)

  /** `saves` and `bumps` count the writers' steps; `pending` writers have saved and not yet bumped. */
  datatype System = System(
    rows: map<Id, EventListing>,
    version: Option<nat>,
    pages: map<string, Timed<Page>>,
    now: int,
    readers: seq<Reader>,
    saves: nat,
    bumps: nat,
    pending: nat)

  datatype Step =
    | Begin(query: Query)
    | Probe(i: nat)
    | RunQuery(i: nat)
    | Store(i: nat)
    | SaveDraft(event: Id, row: EventListing)
    | SaveChange(event: Id, row: EventListing)
    | Bump
    | Tick(seconds: nat)

  /** A missing version reads as 1. */
  function Current(version: Option<nat>): nat {
    match version case None => 1 case Some(n) => n
  }

  /** INCR: a missing version becomes 1 as well. */
  function Bumped(version: Option<nat>): Option<nat> {
    match version case None => Some(1) case Some(n) => Some(n + 1)
  }

  function KeyOf(r: Reader): string {
    ListCacheKey(r.version, r.query)
  }

  predicate PageLive(s: System, key: string) {
    key in s.pages && s.now < s.pages[key].expiresAt
  }

  /** create inserts a draft under a fresh id; every other writer saves some row of an existing event. */
  predicate Enabled(s: System, st: Step) {
    match st
    case Begin(_) => true
    case Probe(i) => i < |s.readers| && s.readers[i].Asked?
    case RunQuery(i) => i < |s.readers| && s.readers[i].Missed?
    case Store(i) => i < |s.readers| && s.readers[i].Queried?
    case SaveDraft(event, row) => event !in s.rows && row.status == Draft
    case SaveChange(event, row) => event in s.rows
    case Bump => s.pending > 0
    case Tick(_) => true
  }

  function Apply(select: Select, s: System, st: Step): System
    requires Enabled(s, st)
  {
    match st
    case Begin(query) => s.(readers := s.readers + [Asked(Current(s.version), query)])
    case Probe(i) =>
      var r := s.readers[i];
      var key := KeyOf(r);
      if PageLive(s, key) then s.(readers := s.readers[i := Answered(r.version, r.query, s.pages[key].value)])
      else s.(readers := s.readers[i := Missed(r.version, r.query)])
    case RunQuery(i) =>
      var r := s.readers[i];
      s.(readers := s.readers[i := Queried(r.version, r.query, ListPage(select, Listed(s.rows), r.query))])
    case Store(i) =>
      var r := s.readers[i];
      s.(pages := s.pages[KeyOf(r) := Timed(r.page, s.now + EVENTS_CACHE_TTL)],
         readers := s.readers[i := Answered(r.version, r.query, r.page)])
    case SaveDraft(event, row) => s.(rows := s.rows[event := row], saves := s.saves + 1, pending := s.pending + 1)
    case SaveChange(event, row) => s.(rows := s.rows[event := row], saves := s.saves + 1, pending := s.pending + 1)
    case Bump => s.(version := Bumped(s.version), bumps := s.bumps + 1, pending := s.pending - 1)
    case Tick(seconds) => s.(now := s.now + seconds)
  }

  predicate ValidRun(select: Select, s: System, steps: seq<Step>)
    decreases |steps|
  {
    steps != [] ==> Enabled(s, steps[0]) && ValidRun(select, Apply(select, s, steps[0]), steps[1..])
  }

  function Run(select: Select, s: System, steps: seq<Step>): System
    requires ValidRun(select, s, steps)
    decreases |steps|
  {
    if steps == [] then s else Run(select, Apply(select, s, steps[0]), steps[1..])
  }

  /** Empty database, empty Redis. */
  function Empty(now: int): System {
    System(map[], None, map[], now, [], 0, 0, 0)
  }

  // ---------------------------------------------------------------- what every run keeps

  ghost predicate Fresh(select: Select, rows: map<Id, EventListing>, query: Query, page: Page) {
    page == ListPage(select, Listed(rows), query)
  }

  /** Nothing in the cache or in a reader's hands carries a version yet to come. */
  ghost predicate NoFutureVersions(pages: map<string, Timed<Page>>, readers: seq<Reader>, current: nat) {
    && (forall v: nat, q :: ListCacheKey(v, q) in pages ==> v <= current)
    && (forall i :: 0 <= i < |readers| ==> readers[i].version <= current)
  }

  /** Everything cached or about to be cached under the current version is what the query gives now. */
  ghost predicate AllFresh(select: Select, rows: map<Id, EventListing>, pages: map<string, Timed<Page>>,
                           readers: seq<Reader>, current: nat) {
    && (forall q :: ListCacheKey(current, q) in pages ==> Fresh(select, rows, q, pages[ListCacheKey(current, q)].value))
    && (forall i :: 0 <= i < |readers| && readers[i].Queried? && readers[i].version == current ==>
          Fresh(select, rows, readers[i].query, readers[i].page))
  }

  ghost predicate Counted(s: System) {
    && s.saves == s.bumps + s.pending
    && s.version == (if s.bumps == 0 then None else Some(s.bumps))
    && (s.saves == 0 ==> s.rows == map[])
    && (s.saves == 1 ==> Listed(s.rows) == map[])
  }

  ghost predicate Inv(select: Select, s: System) {
    && Counted(s)
    && NoFutureVersions(s.pages, s.readers, Current(s.version))
    && (s.pending == 0 || s.saves == 1 ==> AllFresh(select, s.rows, s.pages, s.readers, Current(s.version)))
  }

  predicate AlikeQueries(q: Query, q': Query) {
    q.filters == q'.filters && PageOf(q) == PageOf(q') && LimitOf(q) == LimitOf(q')
  }

  lemma StoredPage(pages: map<string, Timed<Page>>, r: Reader, entry: Timed<Page>, v: nat, q: Query)
    requires ListCacheKey(v, q) in pages[KeyOf(r) := entry]
    ensures ListCacheKey(v, q) == KeyOf(r) <==> v == r.version && AlikeQueries(q, r.query)
    ensures ListCacheKey(v, q) != KeyOf(r) ==> ListCacheKey(v, q) in pages
  {
    KeyInjective(v, q, r.version, r.query);
  }

  lemma VersionsKept(select: Select, s: System, st: Step)
    requires Counted(s) && Enabled(s, st) && NoFutureVersions(s.pages, s.readers, Current(s.version))
    ensures var t := Apply(select, s, st); NoFutureVersions(t.pages, t.readers, Current(t.version))
  {
    var t := Apply(select, s, st);
    if st.Store? {
      forall v: nat, q | ListCacheKey(v, q) in t.pages ensures v <= Current(t.version) {
        StoredPage(s.pages, s.readers[st.i], Timed(s.readers[st.i].page, s.now + EVENTS_CACHE_TTL), v, q);
      }
    }
  }

  /** Readers and the clock keep freshness. */
  lemma ReadersKeepFresh(select: Select, s: System, st: Step)
    requires Enabled(s, st) && !st.SaveDraft? && !st.SaveChange? && !st.Bump?
    requires AllFresh(select, s.rows, s.pages, s.readers, Current(s.version))
    ensures var t := Apply(select, s, st); AllFresh(select, t.rows, t.pages, t.readers, Current(t.version))
  {
    var t := Apply(select, s, st);
    var v := Current(t.version);
    if st.Store? {
      var r := s.readers[st.i];
      forall q | ListCacheKey(v, q) in t.pages ensures Fresh(select, t.rows, q, t.pages[ListCacheKey(v, q)].value) {
        StoredPage(s.pages, r, Timed(r.page, s.now + EVENTS_CACHE_TTL), v, q);
      }
    }
  }

  /**
   * A bump makes nothing stale: it starts a version nothing carries, or it is the first one and nothing was ever
   * listed.
   */
  lemma BumpMakesFresh(select: Select, s: System)
    requires Inv(select, s) && s.pending == 1
    ensures AllFresh(select, s.rows, s.pages, s.readers, Current(Bumped(s.version)))
  {
  }

  lemma StepKeeps(select: Select, s: System, st: Step)
    requires Inv(select, s) && Enabled(s, st)
    ensures Inv(select, Apply(select, s, st))
  {
    VersionsKept(select, s, st);
    match st
    case SaveDraft(_, _) =>
    case SaveChange(_, _) =>
    case Bump => if s.pending == 1 { BumpMakesFresh(select, s); }
    case _ => if s.pending == 0 || s.saves == 1 { ReadersKeepFresh(select, s, st); }
  }

  lemma {:induction false} InvariantOverRuns(select: Select, s: System, steps: seq<Step>)
    requires Inv(select, s) && ValidRun(select, s, steps)
    ensures Inv(select, Run(select, s, steps))
    decreases |steps|
  {
    if steps != [] {
      StepKeeps(select, s, steps[0]);
      InvariantOverRuns(select, Apply(select, s, steps[0]), steps[1..]);
    }
  }

  /**
   * Whenever no writer is between its save and its bump, a page under the current version is what the query gives now.
   */
  lemma FreshWhenQuiet(select: Select, now: int, steps: seq<Step>, query: Query)
    requires ValidRun(select, Empty(now), steps) && Run(select, Empty(now), steps).pending == 0
    requires var s := Run(select, Empty(now), steps); ListCacheKey(Current(s.version), query) in s.pages
    ensures var s := Run(select, Empty(now), steps);
            s.pages[ListCacheKey(Current(s.version), query)].value == ListPage(select, Listed(s.rows), query)
  {
    InvariantOverRuns(select, Empty(now), steps);
  }

  // ---------------------------------------------------------------- what a whole read returns

  /** The published rows at every moment of a run. */
  function History(select: Select, s: System, steps: seq<Step>): set<map<Id, EventListing>>
    requires ValidRun(select, s, steps)
    decreases |steps|
  {
    {Listed(s.rows)} + if steps == [] then {} else History(select, Apply(select, s, steps[0]), steps[1..])
  }

  /** The page lists the published rows of some moment. */
  ghost predicate FromSome(select: Select, history: set<map<Id, EventListing>>, query: Query, page: Page) {
    exists p :: p in history && page == ListPage(select, p, query)
  }

  /**
   * All live pages under version v, and those of readers from index n on that read version v, list rows of the history.
   */
  ghost predicate Traced(select: Select, s: System, v: nat, n: nat, history: set<map<Id, EventListing>>) {
    && (forall q ::
          PageLive(s, ListCacheKey(v, q)) ==> FromSome(select, history, q, s.pages[ListCacheKey(v, q)].value))
    && (forall i ::
          0 <= i < |s.readers| && s.readers[i].version == v &&
          (s.readers[i].Queried? || (i >= n && s.readers[i].Answered?)) ==>
          FromSome(select, history, s.readers[i].query, s.readers[i].page))
  }

  lemma StepTraced(select: Select, s: System, st: Step, v: nat, n: nat, history: set<map<Id, EventListing>>)
    requires Enabled(s, st) && Traced(select, s, v, n, history) && Listed(s.rows) in history
    ensures Traced(select, Apply(select, s, st), v, n, history)
  {
    var t := Apply(select, s, st);
    if st.Store? {
      var r := s.readers[st.i];
      forall q | PageLive(t, ListCacheKey(v, q))
        ensures FromSome(select, history, q, t.pages[ListCacheKey(v, q)].value)
      {
        StoredPage(s.pages, r, Timed(r.page, s.now + EVENTS_CACHE_TTL), v, q);
        if ListCacheKey(v, q) == KeyOf(r) {
          SameQuery(select, history, r.query, q, r.page);
        }
      }
    }
    if st.RunQuery? {
      assert FromSome(select, history, t.readers[st.i].query, t.readers[st.i].page);
    }
  }

  lemma SameQuery(select: Select, history: set<map<Id, EventListing>>, q: Query, q': Query, page: Page)
    ensures AlikeQueries(q', q) && FromSome(select, history, q, page) ==> FromSome(select, history, q', page)
  {
  }

  lemma {:induction false} RunTraced(select: Select, s: System, steps: seq<Step>, v: nat, n: nat,
                                     history: set<map<Id, EventListing>>)
    requires ValidRun(select, s, steps) && Traced(select, s, v, n, history) && History(select, s, steps) <= history
    ensures Traced(select, Run(select, s, steps), v, n, history)
    decreases |steps|
  {
    if steps != [] {
      StepTraced(select, s, steps[0], v, n, history);
      RunTraced(select, Apply(select, s, steps[0]), steps[1..], v, n, history);
    }
  }

  /**
   * A read begun while no writer is halfway answers with the listing of some moment between its beginning and its end.
   */
  lemma ReadsAreLinearizable(select: Select, s: System, query: Query, steps: seq<Step>)
    requires Inv(select, s) && s.pending == 0
    requires ValidRun(select, Apply(select, s, Begin(query)), steps)
    ensures var begun := Apply(select, s, Begin(query));
            var r := Run(select, begun, steps).readers;
            |r| > |s.readers| && r[|s.readers|].query == query
            && (r[|s.readers|].Answered? ==>
                  FromSome(select, History(select, begun, steps), query, r[|s.readers|].page))
  {
    var begun := Apply(select, s, Begin(query));
    var v := Current(s.version);
    var history := History(select, begun, steps);
    RunTraced(select, begun, steps, v, |s.readers|, history);
    ReaderKeeps(select, begun, steps, |s.readers|);
  }

  /** A reader never changes its query or the version it read first. */
  lemma {:induction false} ReaderKeeps(select: Select, s: System, steps: seq<Step>, i: nat)
    requires ValidRun(select, s, steps) && i < |s.readers|
    ensures var r := Run(select, s, steps).readers;
            i < |r| && r[i].query == s.readers[i].query && r[i].version == s.readers[i].version
    decreases |steps|
  {
    if steps != [] { ReaderKeeps(select, Apply(select, s, steps[0]), steps[1..], i); }
  }

  /**
   * Even with writers halfway: once a bump has started version v >= 2, every later read that sees version v answers
   * with the listing of some moment since that bump, so it misses no write that had bumped before it.
   */
  lemma CompletedWritesVisible(select: Select, s: System, steps: seq<Step>, i: nat)
    requires Inv(select, s) && s.pending > 0 && s.bumps > 0
    requires ValidRun(select, Apply(select, s, Bump), steps)
    requires var r := Run(select, Apply(select, s, Bump), steps).readers;
             |s.readers| <= i < |r| && r[i].Answered? && r[i].version == s.bumps + 1
    ensures var bumped := Apply(select, s, Bump);
            var r := Run(select, bumped, steps).readers[i];
            FromSome(select, History(select, bumped, steps), r.query, r.page)
  {
    var bumped := Apply(select, s, Bump);
    var history := History(select, bumped, steps);
    assert Traced(select, bumped, s.bumps + 1, |s.readers|, history);
    RunTraced(select, bumped, steps, s.bumps + 1, |s.readers|, history);
  }
}
