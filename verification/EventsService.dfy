/**
 * The events service with its rows and its cache: each call whole, so that every list request is answered as if there
 * were no cache.
 */
module EventsService {
  import opened Tables
  import opened OtpStore
  import opened EventsKey
  import opened EventsCache

  /**
   * No page carries a version yet to come, pages under the current version are what the query gives, and before the
   * first bump there are no rows.
   */
  ghost predicate CacheValid(select: Select, rows: map<Id, EventListing>, version: Option<nat>,
                             pages: map<string, Timed<Page>>) {
    && (version == None ==> rows == map[])
    && NoFutureVersions(pages, [], Current(version))
    && AllFresh(select, rows, pages, [], Current(version))
  }

  /**
   * A write and its bump keep the cache valid: either no page carries the new version, or the write was the first
   * draft.
   */
  lemma WriteKeepsValid(select: Select, rows: map<Id, EventListing>, version: Option<nat>,
                        pages: map<string, Timed<Page>>,
                        event: Id, row: EventListing)
    requires CacheValid(select, rows, version, pages) && (event in rows || row.status == Draft)
    ensures CacheValid(select, rows[event := row], Bumped(version), pages)
  {
  }

  class EventsService {
    const select: Select
    var venues: set<Id>
    var rows: map<Id, EventListing>
    var version: Option<nat>
    var pages: map<string, Timed<Page>>
    var now: int

    ghost predicate Valid()
      reads this
    {
      CacheValid(select, rows, version, pages)
    }

    /** Empty database, empty Redis. */
    constructor (select: Select, venues: set<Id>, now: int)
      ensures Valid() && rows == map[] && this.select == select && this.venues == venues
    {
      this.select, this.venues, this.now := select, venues, now;
      rows, version, pages := map[], None, map[];
    }

    method BumpEventsCache()
      modifies this`version
      ensures version == Bumped(old(version))
    {
      version := if version == None then Some(1) else Some(version.value + 1);
    }

    method Create(event: Id, organizer: Id, venue: Id, title: string, startTime: int) returns (result: Result<Id>)
      requires Valid() && event !in rows
      modifies this`rows, this`version
      ensures Valid()
      ensures venue !in venues ==> result == Err(NotFound) && rows == old(rows) && version == old(version)
      ensures venue in venues ==> result == Ok(event) && version == Bumped(old(version))
      ensures venue in venues ==>
              rows == old(rows)[event := EventListing(organizer, venue, Draft, title, startTime, None)]
    {
      if venue !in venues { return Err(NotFound); }
      var row := EventListing(organizer, venue, Draft, title, startTime, None);
      WriteKeepsValid(select, rows, version, pages, event, row);
      rows := rows[event := row];
      BumpEventsCache();
      return Ok(event);
    }

    method UploadBanner(event: Id, organizer: Id, url: string) returns (result: Result<EventListing>)
      requires Valid()
      modifies this`rows, this`version
      ensures Valid()
      ensures result == Err(NotFound) <==> event !in old(rows)
      ensures result == Err(Forbidden) <==> event in old(rows) && old(rows)[event].organizer != organizer
      ensures result == Err(NotFound) || result == Err(Forbidden) ||
              (event in old(rows) && result == Ok(old(rows)[event].(banner := Some(url))))
      ensures rows == if result.Ok? then old(rows)[event := result.value] else old(rows)
      ensures version == if result.Ok? then Bumped(old(version)) else old(version)
    {
      if event !in rows { return Err(NotFound); }
      if rows[event].organizer != organizer { return Err(Forbidden); }
      var row := rows[event].(banner := Some(url));
      WriteKeepsValid(select, rows, version, pages, event, row);
      rows := rows[event := row];
      BumpEventsCache();
      return Ok(row);
    }

    /** Only drafts can be published, so a cancelled event never comes back. */
    method Publish(event: Id, organizer: Id) returns (result: Result<EventListing>)
      requires Valid()
      modifies this`rows, this`version
      ensures Valid()
      ensures result == Err(NotFound) <==> event !in old(rows)
      ensures result == Err(Forbidden) <==>
              event in old(rows) && (old(rows)[event].organizer != organizer || old(rows)[event].status != Draft)
      ensures result == Err(NotFound) || result == Err(Forbidden) ||
              (event in old(rows) && result == Ok(old(rows)[event].(status := Published)))
      ensures rows == if result.Ok? then old(rows)[event := result.value] else old(rows)
      ensures version == if result.Ok? then Bumped(old(version)) else old(version)
      ensures result.Ok? ==> event !in Listed(old(rows)) && Listed(rows) == Listed(old(rows))[event := result.value]
    {
      if event !in rows { return Err(NotFound); }
      if rows[event].organizer != organizer { return Err(Forbidden); }
      if rows[event].status != Draft { return Err(Forbidden); }
      var row := rows[event].(status := Published);
      WriteKeepsValid(select, rows, version, pages, event, row);
      rows := rows[event := row];
      BumpEventsCache();
      return Ok(row);
    }

    /** Whatever the status was. */
    method Cancel(event: Id, organizer: Id) returns (result: Result<EventListing>)
      requires Valid()
      modifies this`rows, this`version
      ensures Valid()
      ensures result == Err(NotFound) <==> event !in old(rows)
      ensures result == Err(Forbidden) <==> event in old(rows) && old(rows)[event].organizer != organizer
      ensures result == Err(NotFound) || result == Err(Forbidden) ||
              (event in old(rows) && result == Ok(old(rows)[event].(status := Cancelled)))
      ensures rows == if result.Ok? then old(rows)[event := result.value] else old(rows)
      ensures version == if result.Ok? then Bumped(old(version)) else old(version)
      ensures result.Ok? ==> Listed(rows) == Listed(old(rows)) - {event}
    {
      if event !in rows { return Err(NotFound); }
      if rows[event].organizer != organizer { return Err(Forbidden); }
      var row := rows[event].(status := Cancelled);
      WriteKeepsValid(select, rows, version, pages, event, row);
      rows := rows[event := row];
      BumpEventsCache();
      return Ok(row);
    }

    /** Cached or not, the page is what a direct query gives now. */
    method ListPublished(query: Query) returns (page: Page)
      requires Valid()
      modifies this`pages
      ensures Valid()
      ensures page == ListPage(select, Listed(rows), query)
      ensures var key := ListCacheKey(Current(version), query);
              pages == if key in old(pages) && now < old(pages)[key].expiresAt then old(pages)
                       else old(pages)[key := Timed(page, now + 600)]
    {
      var currentVersion := if version == None then 1 else version.value;
      var key := ListCacheKey(currentVersion, query);
      if key in pages && now < pages[key].expiresAt {
        return pages[key].value;
      }
      page := ListPage(select, Listed(rows), query);
      FillKeepsValid(select, rows, version, pages, query, Timed(page, now + EVENTS_CACHE_TTL));
      pages := pages[key := Timed(page, now + EVENTS_CACHE_TTL)];
    }

    /** Time passes; expired pages are never served and count for nothing. */
    method Wait(seconds: nat)
      requires Valid()
      modifies this`now
      ensures Valid() && now == old(now) + seconds
    {
      now := now + seconds;
    }
  }

  lemma FillKeepsValid(select: Select, rows: map<Id, EventListing>, version: Option<nat>,
                       pages: map<string, Timed<Page>>,
                       query: Query, entry: Timed<Page>)
    requires CacheValid(select, rows, version, pages) && entry.value == ListPage(select, Listed(rows), query)
    ensures CacheValid(select, rows, version, pages[ListCacheKey(Current(version), query) := entry])
  {
    var v := Current(version);
    var filled := pages[ListCacheKey(v, query) := entry];
    forall v': nat, q | ListCacheKey(v', q) in filled ensures v' <= v { KeyInjective(v', q, v, query); }
    forall q | ListCacheKey(v, q) in filled
        ensures Fresh(select, rows, q, filled[ListCacheKey(v, q)].value) { KeyInjective(v, q, v, query); }
  }
}
