/** Where the cached events list does go stale: beside rows with an empty Redis, and while a create has yet to bump. */
module EventsStale {
  import opened Tables
  import opened OtpStore
  import opened EventsKey
  import opened EventsCache

  // ---------------------------------------------------------------- a start beside rows

  /** A database with rows beside an empty Redis. */
  function Restarted(rows: map<Id, EventListing>, now: int): System {
    System(rows, None, map[], now, [], 0, 0, 0)
  }

  lemma RunStep(select: Select, s: System, st: Step, t: System, rest: seq<Step>)
    ensures Enabled(s, st) && Apply(select, s, st) == t && ValidRun(select, t, rest) ==>
            ValidRun(select, s, [st] + rest) && Run(select, s, [st] + rest) == Run(select, t, rest)
  {
  }

  /** One reader has filled version 1 with the page of these rows. */
  function Filled(select: Select, rows: map<Id, EventListing>, now: int, query: Query): System {
    var page := ListPage(select, Listed(rows), query);
    System(rows, None, map[ListCacheKey(1, query) := Timed(page, now + EVENTS_CACHE_TTL)], now,
        [Answered(1, query, page)], 0, 0, 0)
  }

  /** The four steps that fill it, and then some. */
  function Filling(query: Query, rest: seq<Step>): seq<Step> {
    [Begin(query)] + ([Probe(0)] + ([RunQuery(0)] + ([Store(0)] + rest)))
  }

  lemma FillingFills(select: Select, rows: map<Id, EventListing>, now: int, query: Query, rest: seq<Step>)
    requires ValidRun(select, Filled(select, rows, now, query), rest)
    ensures ValidRun(select, Restarted(rows, now), Filling(query, rest))
    ensures Run(select, Restarted(rows, now), Filling(query, rest)) ==
            Run(select, Filled(select, rows, now, query), rest)
  {
    var a := Restarted(rows, now);
    var page := ListPage(select, Listed(rows), query);
    var b, c, d := a.(readers := [Asked(1, query)]), a.(readers := [Missed(1, query)]),
        a.(readers := [Queried(1, query, page)]);
    RunStep(select, d, Store(0), Filled(select, rows, now, query), rest);
    RunStep(select, c, RunQuery(0), d, [Store(0)] + rest);
    RunStep(select, b, Probe(0), c, [RunQuery(0)] + ([Store(0)] + rest));
    RunStep(select, a, Begin(query), b, [Probe(0)] + ([RunQuery(0)] + ([Store(0)] + rest)));
  }

  /**
   * Beside a non-empty database an empty Redis is not safe: a reader fills version 1, the first write bumps to version
   * 1, and with no writer halfway the page is stale whenever the write changed what the query gives.
   */
  lemma StaleAfterFirstBump(select: Select, rows: map<Id, EventListing>, now: int, query: Query, event: Id,
                            row: EventListing)
    requires event in rows
    requires ListPage(select, Listed(rows), query) != ListPage(select, Listed(rows[event := row]), query)
    ensures var steps := Filling(query, [SaveChange(event, row)] + ([Bump] + []));
            && ValidRun(select, Restarted(rows, now), steps)
            && var s := Run(select, Restarted(rows, now), steps);
               && s.pending == 0 && s.version == Some(1) && PageLive(s, ListCacheKey(1, query))
               && !Fresh(select, s.rows, query, s.pages[ListCacheKey(1, query)].value)
  {
    var a := Filled(select, rows, now, query);
    var b := a.(rows := rows[event := row], saves := 1, pending := 1);
    var c := b.(version := Some(1), bumps := 1, pending := 0);
    RunStep(select, b, Bump, c, []);
    RunStep(select, a, SaveChange(event, row), b, [Bump] + []);
    FillingFills(select, rows, now, query, [SaveChange(event, row)] + ([Bump] + []));
  }

  /** What a start beside rows keeps: the counts, no version yet to come, and freshness but after the first bump. */
  ghost predicate RestartInv(select: Select, s: System) {
    && s.saves == s.bumps + s.pending
    && s.version == (if s.bumps == 0 then None else Some(s.bumps))
    && NoFutureVersions(s.pages, s.readers, Current(s.version))
    && (s.pending == 0 && s.bumps != 1 ==> AllFresh(select, s.rows, s.pages, s.readers, Current(s.version)))
  }

  lemma FutureKept(select: Select, s: System, st: Step)
    requires RestartInv(select, s) && Enabled(s, st)
    ensures var t := Apply(select, s, st); NoFutureVersions(t.pages, t.readers, Current(t.version))
  {
    var t := Apply(select, s, st);
    if st.Store? {
      forall v: nat, q | ListCacheKey(v, q) in t.pages ensures v <= Current(t.version) {
        StoredPage(s.pages, s.readers[st.i], Timed(s.readers[st.i].page, s.now + EVENTS_CACHE_TTL), v, q);
      }
    }
  }

  lemma RestartStep(select: Select, s: System, st: Step)
    requires RestartInv(select, s) && Enabled(s, st)
    ensures RestartInv(select, Apply(select, s, st))
  {
    FutureKept(select, s, st);
    if !st.SaveDraft? && !st.SaveChange? && !st.Bump? && s.pending == 0 && s.bumps != 1 {
      ReadersKeepFresh(select, s, st);
    }
  }

  /** Every page under the current version is of the rows before the only save or of those after it. */
  ghost predicate OneOfTwo(select: Select, s: System, rows: map<Id, EventListing>) {
    var history := {Listed(rows), Listed(s.rows)};
    && (forall q :: ListCacheKey(1, q) in s.pages ==> FromSome(select, history, q, s.pages[ListCacheKey(1, q)].value))
    && (forall i :: 0 <= i < |s.readers| && s.readers[i].Queried? ==>
          FromSome(select, history, s.readers[i].query, s.readers[i].page))
  }

  /** The rows are those of the start with one row saved: a change of a listed event, or a fresh draft. */
  ghost predicate OneSave(before: map<Id, EventListing>, after: map<Id, EventListing>) {
    exists event: Id, row :: Saved(before, after, event, row)
  }

  predicate Saved(before: map<Id, EventListing>, after: map<Id, EventListing>, event: Id, row: EventListing) {
    after == before[event := row] && (event in before || row.status == Draft)
  }

  ghost predicate AtMostOneSave(select: Select, s: System, rows: map<Id, EventListing>) {
    && (s.saves == 0 ==> s.rows == rows)
    && (s.saves == 1 ==> OneSave(rows, s.rows))
    && (s.saves <= 1 ==> OneOfTwo(select, s, rows))
  }

  lemma OneOfTwoStored(select: Select, s: System, i: nat, rows: map<Id, EventListing>)
    requires Enabled(s, Store(i)) && OneOfTwo(select, s, rows)
    ensures OneOfTwo(select, Apply(select, s, Store(i)), rows)
  {
    var t, r, history := Apply(select, s, Store(i)), s.readers[i], {Listed(rows), Listed(s.rows)};
    forall q | ListCacheKey(1, q) in t.pages
      ensures FromSome(select, history, q, t.pages[ListCacheKey(1, q)].value)
    {
      StoredPage(s.pages, r, Timed(r.page, s.now + EVENTS_CACHE_TTL), 1, q);
      if ListCacheKey(1, q) == KeyOf(r) { SameQuery(select, history, r.query, q, r.page); }
    }
  }

  lemma FirstSaveKept(select: Select, s: System, st: Step, rows: map<Id, EventListing>)
    requires AtMostOneSave(select, s, rows) && s.saves == 0 && Enabled(s, st) && (st.SaveDraft? || st.SaveChange?)
    ensures AtMostOneSave(select, Apply(select, s, st), rows)
  {
    assert Saved(rows, Apply(select, s, st).rows, st.event, st.row);
  }

  lemma OtherStepOneOfTwo(select: Select, s: System, st: Step, rows: map<Id, EventListing>)
    requires OneOfTwo(select, s, rows) && Enabled(s, st) && !st.SaveDraft? && !st.SaveChange?
    ensures OneOfTwo(select, Apply(select, s, st), rows)
  {
    match st
    case Store(i) => OneOfTwoStored(select, s, i, rows);
    case RunQuery(i) =>
    case _ =>
  }

  lemma AtMostOneSaveKept(select: Select, s: System, st: Step, rows: map<Id, EventListing>)
    requires AtMostOneSave(select, s, rows) && Enabled(s, st)
    ensures AtMostOneSave(select, Apply(select, s, st), rows)
  {
    if st.SaveDraft? || st.SaveChange? {
      if s.saves == 0 { FirstSaveKept(select, s, st, rows); }
    } else if s.saves <= 1 {
      OtherStepOneOfTwo(select, s, st, rows);
    }
  }

  lemma {:induction false} RestartOverRuns(select: Select, s: System, steps: seq<Step>, rows: map<Id, EventListing>)
    requires RestartInv(select, s) && AtMostOneSave(select, s, rows) && ValidRun(select, s, steps)
    ensures RestartInv(select, Run(select, s, steps)) && AtMostOneSave(select, Run(select, s, steps), rows)
    decreases |steps|
  {
    if steps != [] {
      RestartStep(select, s, steps[0]);
      AtMostOneSaveKept(select, s, steps[0], rows);
      RestartOverRuns(select, Apply(select, s, steps[0]), steps[1..], rows);
    }
  }

  /**
   * Beside any rows, whenever no writer is halfway and not exactly one has bumped, a page under the current version is
   * what the query gives now.
   */
  lemma FreshButAfterFirstBump(select: Select, rows: map<Id, EventListing>, now: int, steps: seq<Step>, query: Query)
    requires ValidRun(select, Restarted(rows, now), steps)
    requires var s := Run(select, Restarted(rows, now), steps);
             s.pending == 0 && s.bumps != 1 && ListCacheKey(Current(s.version), query) in s.pages
    ensures var s := Run(select, Restarted(rows, now), steps);
            Fresh(select, s.rows, query, s.pages[ListCacheKey(Current(s.version), query)].value)
  {
    RestartOverRuns(select, Restarted(rows, now), steps, rows);
  }

  /**
   * After exactly one save and its bump a page under version 1 is of the rows before that save or of those after it.
   */
  lemma BeforeOrAfterFirstSave(select: Select, rows: map<Id, EventListing>, now: int, steps: seq<Step>, query: Query)
    requires ValidRun(select, Restarted(rows, now), steps)
    requires var s := Run(select, Restarted(rows, now), steps);
             s.pending == 0 && s.bumps == 1 && ListCacheKey(1, query) in s.pages
    ensures var s := Run(select, Restarted(rows, now), steps);
            && s.saves == 1 && s.version == Some(1) && OneSave(rows, s.rows)
            && (s.pages[ListCacheKey(1, query)].value == ListPage(select, Listed(rows), query) ||
                s.pages[ListCacheKey(1, query)].value == ListPage(select, Listed(s.rows), query))
  {
    RestartOverRuns(select, Restarted(rows, now), steps, rows);
  }

  /** The run ends at rest with a live page that is not what the query gives. */
  ghost predicate StaleAfter(select: Select, rows: map<Id, EventListing>, now: int, query: Query, steps: seq<Step>) {
    && ValidRun(select, Restarted(rows, now), steps)
    && var s := Run(select, Restarted(rows, now), steps);
       && s.pending == 0 && PageLive(s, ListCacheKey(Current(s.version), query))
       && !Fresh(select, s.rows, query, s.pages[ListCacheKey(Current(s.version), query)].value)
  }

  ghost predicate CanGoStale(select: Select, rows: map<Id, EventListing>, now: int, query: Query) {
    exists steps :: StaleAfter(select, rows, now, query, steps)
  }

  /** Saving this row of an existing event changes what the query gives. */
  ghost predicate Changes(select: Select, rows: map<Id, EventListing>, query: Query, event: Id, row: EventListing) {
    event in rows && ListPage(select, Listed(rows), query) != ListPage(select, Listed(rows[event := row]), query)
  }

  ghost predicate CanChange(select: Select, rows: map<Id, EventListing>, query: Query) {
    exists event: Id, row :: Changes(select, rows, query, event, row)
  }

  /**
   * The exact condition on the rows found at the start: some quiet run leaves a live stale page for the query if and
   * only if saving some existing event anew can change what the query gives.
   */
  lemma GoesStaleIff(select: Select, rows: map<Id, EventListing>, now: int, query: Query)
    ensures CanGoStale(select, rows, now, query) <==> CanChange(select, rows, query)
  {
    if CanGoStale(select, rows, now, query) {
      var steps :| StaleAfter(select, rows, now, query, steps);
      StaleMeansChanged(select, rows, now, steps, query);
    }
    if CanChange(select, rows, query) {
      var event: Id, row :| Changes(select, rows, query, event, row);
      ChangedGoesStale(select, rows, now, query, event, row);
    }
  }

  lemma ChangedGoesStale(select: Select, rows: map<Id, EventListing>, now: int, query: Query, event: Id,
                         row: EventListing)
    requires Changes(select, rows, query, event, row)
    ensures StaleAfter(select, rows, now, query, Filling(query, [SaveChange(event, row)] + ([Bump] + [])))
  {
    StaleAfterFirstBump(select, rows, now, query, event, row);
  }

  lemma StaleMeansChanged(select: Select, rows: map<Id, EventListing>, now: int, steps: seq<Step>, query: Query)
    requires StaleAfter(select, rows, now, query, steps)
    ensures CanChange(select, rows, query)
  {
    var s := Run(select, Restarted(rows, now), steps);
    if s.bumps != 1 { FreshButAfterFirstBump(select, rows, now, steps, query); }
    BumpsAre(select, rows, now, steps);
    BeforeOrAfterFirstSave(select, rows, now, steps, query);
    OneSaveChanged(select, rows, s.rows, query);
  }

  /** A save that changes what the query gives was of an existing event: fresh drafts are not listed. */
  lemma OneSaveChanged(select: Select, before: map<Id, EventListing>, after: map<Id, EventListing>, query: Query)
    requires OneSave(before, after) && ListPage(select, Listed(before), query) != ListPage(select, Listed(after), query)
    ensures CanChange(select, before, query)
  {
    var event: Id, row :| Saved(before, after, event, row);
    DraftsUnlisted(before, event, row);
    assert Changes(select, before, query, event, row);
  }

  lemma BumpsAre(select: Select, rows: map<Id, EventListing>, now: int, steps: seq<Step>)
    requires ValidRun(select, Restarted(rows, now), steps)
    ensures var s := Run(select, Restarted(rows, now), steps); s.version == if s.bumps == 0 then None else Some(s.bumps)
  {
    RestartOverRuns(select, Restarted(rows, now), steps, rows);
  }

  lemma DraftsUnlisted(rows: map<Id, EventListing>, event: Id, row: EventListing)
    ensures event !in rows && row.status == Draft ==> Listed(rows[event := row]) == Listed(rows)
  {
  }

  // ---------------------------------------------------------------- when a bump completes a write

  /** Every live page and every reader's page under the version is what the query gives. */
  ghost predicate LiveFresh(select: Select, s: System, v: nat) {
    && (forall q ::
          PageLive(s, ListCacheKey(v, q)) ==> Fresh(select, s.rows, q, s.pages[ListCacheKey(v, q)].value))
    && (forall i :: 0 <= i < |s.readers| && s.readers[i].Queried? && s.readers[i].version == v ==>
          Fresh(select, s.rows, s.readers[i].query, s.readers[i].page))
  }

  /** Every read begun from now on that sees version v answers with the listing of some moment from now on. */
  ghost predicate ReadsFromNow(select: Select, s: System, v: nat) {
    forall steps, i: nat :: AnsweredLater(select, s, v, steps, i) ==>
      FromSome(select, History(select, s, steps), Run(select, s, steps).readers[i].query,
          Run(select, s, steps).readers[i].page)
  }

  ghost predicate AnsweredLater(select: Select, s: System, v: nat, steps: seq<Step>, i: nat) {
    && ValidRun(select, s, steps)
    && |s.readers| <= i < |Run(select, s, steps).readers|
    && Run(select, s, steps).readers[i].Answered? && Run(select, s, steps).readers[i].version == v
  }

  lemma FreshReadsFromNow(select: Select, s: System, v: nat)
    requires LiveFresh(select, s, v)
    ensures ReadsFromNow(select, s, v)
  {
    forall steps, i: nat | AnsweredLater(select, s, v, steps, i)
      ensures FromSome(select, History(select, s, steps), Run(select, s, steps).readers[i].query,
              Run(select, s, steps).readers[i].page)
    {
      var history := History(select, s, steps);
      assert Listed(s.rows) in history;
      assert Traced(select, s, v, |s.readers|, history);
      RunTraced(select, s, steps, v, |s.readers|, history);
    }
  }

  /** A live stale page is served to the next reader. */
  lemma StalePageServed(select: Select, s: System, query: Query)
    requires PageLive(s, ListCacheKey(Current(s.version), query))
    requires !Fresh(select, s.rows, query, s.pages[ListCacheKey(Current(s.version), query)].value)
    ensures var steps := [Begin(query)] + ([Probe(|s.readers|)] + []);
            && AnsweredLater(select, s, Current(s.version), steps, |s.readers|)
            && !FromSome(select, History(select, s, steps), Run(select, s, steps).readers[|s.readers|].query,
                         Run(select, s, steps).readers[|s.readers|].page)
  {
    var n, v := |s.readers|, Current(s.version);
    var a := Apply(select, s, Begin(query));
    var b := Apply(select, a, Probe(n));
    assert b.readers[n] == Answered(v, query, s.pages[ListCacheKey(v, query)].value);
    RunStep(select, a, Probe(n), b, []);
    RunStep(select, s, Begin(query), a, [Probe(n)] + []);
    assert ([Begin(query)] + ([Probe(n)] + []))[1..] == [Probe(n)] + [];
    assert ([Probe(n)] + [])[1..] == [];
    assert History(select, b, []) == {Listed(s.rows)};
    assert History(select, a, [Probe(n)] + []) == {Listed(s.rows)};
  }

  /** And so is a stale page in a reader's hands, once it has stored it. */
  lemma StaleReaderStores(select: Select, s: System, i: nat)
    requires i < |s.readers| && s.readers[i].Queried? && s.readers[i].version == Current(s.version)
    requires !Fresh(select, s.rows, s.readers[i].query, s.readers[i].page)
    ensures !ReadsFromNow(select, s, Current(s.version))
  {
    var n, v, query, a := |s.readers|, Current(s.version), s.readers[i].query, Apply(select, s, Store(i));
    StalePageServed(select, a, query);
    var rest := [Begin(query)] + ([Probe(n)] + []);
    RunStep(select, s, Store(i), a, rest);
    assert ([Store(i)] + rest)[1..] == rest;
    assert AnsweredLater(select, s, v, [Store(i)] + rest, n);
  }

  /**
   * Exactly when no later read can miss what is in the table now: when every live page and every reader's page under
   * the current version is what the query gives.
   */
  lemma ReadsFromNowIff(select: Select, s: System)
    ensures ReadsFromNow(select, s, Current(s.version)) <==> LiveFresh(select, s, Current(s.version))
  {
    var v := Current(s.version);
    if LiveFresh(select, s, v) {
      FreshReadsFromNow(select, s, v);
    } else if q :| PageLive(s, ListCacheKey(v, q)) && !Fresh(select, s.rows, q, s.pages[ListCacheKey(v, q)].value) {
      StalePageServed(select, s, q);
    } else {
      var i: nat :| i < |s.readers| && s.readers[i].Queried? && s.readers[i].version == v &&
        !Fresh(select, s.rows, s.readers[i].query, s.readers[i].page);
      StaleReaderStores(select, s, i);
    }
  }

  /**
   * A bump completes its write: but for the first bump with another writer still halfway, every later read that sees
   * the new version answers with the listing of some moment since that bump.
   */
  lemma BumpCompletesWrite(select: Select, s: System)
    requires Inv(select, s) && s.pending > 0 && (s.bumps > 0 || s.pending == 1)
    ensures var bumped := Apply(select, s, Bump); ReadsFromNow(select, bumped, Current(bumped.version))
  {
    var bumped := Apply(select, s, Bump);
    if s.bumps == 0 { BumpMakesFresh(select, s); }
    assert LiveFresh(select, bumped, Current(bumped.version));
    FreshReadsFromNow(select, bumped, Current(bumped.version));
  }

  /** Beside any rows, every bump but the first completes its write. */
  lemma LaterBumpCompletesWrite(select: Select, s: System)
    requires RestartInv(select, s) && s.pending > 0 && s.bumps > 0
    ensures var bumped := Apply(select, s, Bump); ReadsFromNow(select, bumped, Current(bumped.version))
  {
    var bumped := Apply(select, s, Bump);
    assert LiveFresh(select, bumped, Current(bumped.version));
    FreshReadsFromNow(select, bumped, Current(bumped.version));
  }

  /**
   * Nor is a finished write known to be listed while the event's own create is still to bump: the write's bump is the
   * first.
   */
  lemma StaleWhileCreatePends(select: Select, now: int, query: Query, event: Id, row: EventListing)
    requires row.status == Draft
    requires ListPage(select, map[], query) != ListPage(select, map[event := row.(status := Published)], query)
    ensures var published := row.(status := Published);
            var steps := Filling(query, [SaveDraft(event, row)] + ([SaveChange(event, published)] + ([Bump] + [])));
            && ValidRun(select, Empty(now), steps)
            && var s := Run(select, Empty(now), steps);
               && s.pending == 1 && s.version == Some(1) && PageLive(s, ListCacheKey(1, query))
               && !Fresh(select, s.rows, query, s.pages[ListCacheKey(1, query)].value)
  {
    var published := row.(status := Published);
    var a := Filled(select, map[], now, query);
    var b := a.(rows := map[event := row], saves := 1, pending := 1);
    var c := a.(rows := map[event := published], saves := 2, pending := 2);
    var d := c.(version := Some(1), bumps := 1, pending := 1);
    assert map[event := row][event := published] == map[event := published];
    RunStep(select, c, Bump, d, []);
    RunStep(select, b, SaveChange(event, published), c, [Bump] + []);
    RunStep(select, a, SaveDraft(event, row), b, [SaveChange(event, published)] + ([Bump] + []));
    FillingFills(select, map[], now, query, [SaveDraft(event, row)] + ([SaveChange(event, published)] + ([Bump] + [])));
    assert Listed(map[]) == map[] && Listed(map[event := published]) == map[event := published];
  }
}
