/** The Redis keys of the seat counts, their invalidation, and what keeps them exact. */
module Availability {
  import opened Text
  import opened Tables
  import opened KeyValue
  import opened SeatCounts
  import opened Store

  function SeatAvailabilityKey(section: Id): string {
    "seats:available:" + IdText(section)
  }

  lemma KeysDiffer(x: Id, y: Id)
    ensures SeatAvailabilityKey(x) == SeatAvailabilityKey(y) <==> x == y
  {
    if SeatAvailabilityKey(x) == SeatAvailabilityKey(y) {
      assert SeatAvailabilityKey(x)[16..] == IdText(x) && SeatAvailabilityKey(y)[16..] == IdText(y);
      DecimalInjective(x, y);
    }
  }

  function KeysFor(sections: set<Id>): set<string> {
    set x | x in sections :: SeatAvailabilityKey(x)
  }

  /** Every live count is the number the count query gives. */
  ghost predicate CacheExact(entries: map<string, Entry>, now: int, seats: map<Id, Seat>) {
    forall x :: Live(entries, now, SeatAvailabilityKey(x)) ==>
      entries[SeatAvailabilityKey(x)].value == Number(|AvailableIn(seats, x)|)
  }

  /** Dropping the counts of the sections a write touched keeps the others exact. */
  lemma DroppedKeepsExact(entries: map<string, Entry>, now: int, before: map<Id, Seat>, after: map<Id, Seat>,
                          dropped: set<Id>)
    requires CacheExact(entries, now, before) && AlikeOutside(before, after, dropped)
    ensures CacheExact(entries - KeysFor(dropped), now, after)
  {
  }

  lemma StoredKeepsExact(entries: map<string, Entry>, now: int, seats: map<Id, Seat>, section: Id, entry: Entry)
    requires CacheExact(entries, now, seats) && entry.value == Number(|AvailableIn(seats, section)|)
    ensures CacheExact(entries[SeatAvailabilityKey(section) := entry], now, seats)
  {
    forall x | Live(entries[SeatAvailabilityKey(section) := entry], now, SeatAvailabilityKey(x))
      ensures entries[SeatAvailabilityKey(section) := entry][SeatAvailabilityKey(x)].value ==
              Number(|AvailableIn(seats, x)|)
    {
      KeysDiffer(x, section);
    }
  }

  /** The section ids named in a list; a missing one is left out. */
  function Named(sectionIds: seq<Option<Id>>): set<Id> {
    set id | id in sectionIds && id.Some? :: id.value
  }

  /** Drops the counts of the given sections, each once. */
  method InvalidateSeatAvailability(redis: Redis, sectionIds: seq<Option<Id>>)
    modifies redis`entries
    ensures redis.entries == old(redis.entries) - KeysFor(Named(sectionIds))
  {
    var unique := Named(sectionIds);
    if |unique| == 0 {
      assert KeysFor(unique) == {};
      return;
    }
    redis.DelAll(KeysFor(unique));
  }

  /** Looks the seats' sections up first. */
  method InvalidateSeatAvailabilityBySeatIds(db: Database, redis: Redis, seatIds: set<Id>)
    modifies redis`entries
    ensures redis.entries == old(redis.entries) - KeysFor(SectionsOf(db.seats, seatIds))
  {
    if |seatIds| == 0 {
      assert KeysFor(SectionsOf(db.seats, seatIds)) == {};
      return;
    }
    var found := Find(seatIds * db.seats.Keys);
    assert forall s :: s in found ==> s in Elements(found);
    SectionsListed(db.seats, seatIds, found);
    InvalidateSeatAvailability(redis, SectionIds(db.seats, found));
  }

  /** The section of each found seat. */
  function SectionIds(seats: map<Id, Seat>, found: seq<Id>): (sections: seq<Option<Id>>)
    requires forall s :: s in found ==> s in seats
    ensures |sections| == |found| && forall i :: 0 <= i < |found| ==> sections[i] == Some(seats[found[i]].section)
  {
    seq(|found|, i requires 0 <= i < |found| => assert found[i] in found; Some(seats[found[i]].section))
  }

  lemma SectionsListed(seats: map<Id, Seat>, seatIds: set<Id>, found: seq<Id>)
    requires Returns(found, seatIds * seats.Keys) && forall s :: s in found ==> s in seats
    ensures Named(SectionIds(seats, found)) == SectionsOf(seats, seatIds)
  {
    var sections := SectionIds(seats, found);
    forall s | s in seatIds && s in seats ensures Some(seats[s].section) in sections {
      assert s in Elements(found);
      var i :| 0 <= i < |found| && found[i] == s;
      assert sections[i] == Some(seats[s].section);
    }
    forall id | id in sections ensures id.Some? && id.value in SectionsOf(seats, seatIds) {
      var i :| 0 <= i < |sections| && sections[i] == id;
      assert found[i] in Elements(found);
    }
  }
}
