/** The seats service over the database and the Redis counts: each call whole, so every count answered is exact. */
module SeatsService {
  import opened Text
  import opened Tables
  import opened Booking
  import opened KeyValue
  import opened SeatCounts
  import opened Store
  import opened Availability

  /** The database compares texts by a collation: two are the same when it maps them to one text. */
  type Collation = string -> string

  /** No two seats of a section have the same number: the unique index on seats. */
  ghost predicate NumbersUnique(collate: Collation, seats: map<Id, Seat>, numbers: map<Id, string>) {
    && seats.Keys <= numbers.Keys
    && forall s, q ::
        s in seats && q in seats && seats[s].section == seats[q].section &&
        collate(numbers[s]) == collate(numbers[q]) ==>
        s == q
  }

  /** The new numbers repeat, or one of them is taken in the section. */
  predicate NumbersClash(collate: Collation, seats: map<Id, Seat>, numbers: map<Id, string>, section: Id,
                         seatNumbers: seq<string>)
  {
    || (exists i, j :: 0 <= i < j < |seatNumbers| && collate(seatNumbers[i]) == collate(seatNumbers[j]))
    || exists s :: s in seats && s in numbers && seats[s].section == section && Taken(collate, numbers[s], seatNumbers)
  }

  predicate Taken(collate: Collation, number: string, seatNumbers: seq<string>) {
    exists i :: 0 <= i < |seatNumbers| && collate(number) == collate(seatNumbers[i])
  }

  /** A number is refused only for a seat of the same section, or for another of the new numbers. */
  lemma ClashIff(collate: Collation, seats: map<Id, Seat>, numbers: map<Id, string>, section: Id,
                seatNumbers: seq<string>)
    requires seats.Keys <= numbers.Keys
    ensures NumbersClash(collate, seats, numbers, section, seatNumbers) <==>
            || (exists i, j :: 0 <= i < j < |seatNumbers| && collate(seatNumbers[i]) == collate(seatNumbers[j]))
            || (exists s, i ::
                  && s in seats && 0 <= i < |seatNumbers| && seats[s].section == section
                  && collate(numbers[s]) == collate(seatNumbers[i]))
  {
    forall s, i | s in seats && 0 <= i < |seatNumbers| && collate(numbers[s]) == collate(seatNumbers[i])
      ensures Taken(collate, numbers[s], seatNumbers)
    {
    }
  }

  class SeatsService {
    const db: Database
    const redis: Redis
    const collate: Collation
    var totalSeats: map<Id, int>
    var seatNumber: map<Id, string>

    constructor (db: Database, redis: Redis, collate: Collation, totalSeats: map<Id, int>, seatNumber: map<Id, string>)
      ensures this.db == db && this.redis == redis && this.collate == collate
      ensures this.totalSeats == totalSeats && this.seatNumber == seatNumber
    {
      this.db, this.redis, this.collate := db, redis, collate;
      this.totalSeats, this.seatNumber := totalSeats, seatNumber;
    }

    ghost predicate Valid()
      reads this, db, redis
    {
      && CacheExact(redis.entries, redis.now, db.seats)
      && NumbersUnique(collate, db.seats, seatNumber)
      && db.sections.Keys <= totalSeats.Keys
    }

    /** Cached or counted, the answer is the exact number of available seats. */
    method AvailableCount(section: Id) returns (result: Result<nat>)
      requires Valid()
      modifies redis`entries
      ensures Valid()
      ensures result == if section in db.sections then Ok(|AvailableIn(db.seats, section)|) else Err(NotFound)
      ensures forall key :: key != SeatAvailabilityKey(section) ==>
                (key in redis.entries <==> key in old(redis.entries)) &&
                (key in redis.entries ==> redis.entries[key] == old(redis.entries)[key])
    {
      if section !in db.sections { return Err(NotFound); }
      var cached := redis.Get(SeatAvailabilityKey(section));
      if cached.Some? {
        return Ok(cached.value.count);
      }
      var available := |AvailableIn(db.seats, section)|;
      StoredKeepsExact(redis.entries, redis.now, db.seats, section,
          Entry(Number(available), Some(redis.now + SEAT_AVAILABILITY_TTL_SECONDS)));
      redis.SetEx(SeatAvailabilityKey(section), Number(available), SEAT_AVAILABILITY_TTL_SECONDS);
      return Ok(available);
    }

    /** Adds one seat per number under the generated `ids`, up to the section's capacity. */
    method BulkCreate(section: Id, organizer: Id, seatNumbers: seq<string>,
                      ids: seq<Id>) returns (result: Result<seq<Id>>)
      requires Valid() && |ids| == |seatNumbers| && NoDuplicates(ids) && Elements(ids) !! db.seats.Keys
      requires section in db.sections ==> db.sections[section].event in db.events
      modifies this`seatNumber, db`seats, redis`entries
      ensures Valid()
      ensures result ==
        if section !in db.sections then Err(NotFound)
        else if db.events[db.sections[section].event].organizer != organizer then Err(Forbidden)
        else if |SectionSeats(old(db.seats), section)| + |ids| > totalSeats[section] then Err(Forbidden)
        else if NumbersClash(collate, old(db.seats), old(seatNumber), section, seatNumbers) then Err(Rejected)
        else Ok(ids)
      ensures db.Contents() == if result.Ok? then AddSeats(old(db.Contents()), section, Elements(ids))
              else old(db.Contents())
      ensures result.Ok? ==>
              |SectionSeats(db.seats, section)| == |SectionSeats(old(db.seats), section)| + |ids| <= totalSeats[section]
      ensures result.Ok? ==> forall i :: 0 <= i < |ids| ==> ids[i] in seatNumber && seatNumber[ids[i]] == seatNumbers[i]
      ensures forall s :: s in old(db.seats) ==> s in seatNumber && seatNumber[s] == old(seatNumber)[s]
      ensures redis.entries == if result.Ok? then old(redis.entries) - KeysFor({section}) else old(redis.entries)
    {
      if section !in db.sections { return Err(NotFound); }
      if db.events[db.sections[section].event].organizer != organizer { return Err(Forbidden); }
      var existing := |SectionSeats(db.seats, section)|;
      if existing + |ids| > totalSeats[section] { return Err(Forbidden); }
      if NumbersClash(collate, db.seats, seatNumber, section, seatNumbers) { return Err(Rejected); }
      DistinctCount(ids);
      NumbersStayUnique(collate, db.Contents(), seatNumber, section, seatNumbers, ids);
      seatNumber := Numbered(seatNumber, seatNumbers, ids);
      SaveSeats(section, Elements(ids));
      return Ok(ids);
    }

    method SaveSeats(section: Id, ids: set<Id>)
      requires CacheExact(redis.entries, redis.now, db.seats) && ids !! db.seats.Keys
      modifies db`seats, redis`entries
      ensures CacheExact(redis.entries, redis.now, db.seats)
      ensures db.Contents() == AddSeats(old(db.Contents()), section, ids)
      ensures |SectionSeats(db.seats, section)| == |SectionSeats(old(db.seats), section)| + |ids|
      ensures redis.entries == old(redis.entries) - KeysFor({section})
    {
      ghost var before := db.seats;
      BulkAdds(db.Contents(), section, ids);
      db.seats := AddSeats(db.Contents(), section, ids).seats;
      InvalidateSeatAvailability(redis, [Some(section)]);
      assert Named([Some(section)]) == {section};
      DroppedKeepsExact(old(redis.entries), redis.now, before, db.seats, {section});
    }

    /** Deletes a seat nothing points to. */
    method Remove(seat: Id, organizer: Id) returns (result: Result<()>)
      requires Valid()
      requires SeatRooted(db.Contents(), seat)
      modifies db`seats, redis`entries
      ensures Valid()
      ensures (db.Contents(), result) == RemoveBy(old(db.Contents()), seat, organizer)
      ensures result == Err(NotFound) <==> seat !in old(db.seats)
      ensures result == Err(Forbidden) <==>
              seat in old(db.seats) && db.events[db.sections[old(db.seats)[seat].section].event].organizer != organizer
      ensures result == Err(Rejected) <==>
              seat in old(db.seats) && result != Err(Forbidden) &&
              ((exists r :: r in db.reservations && db.reservations[r].seat == seat) ||
               (exists t :: t in db.tickets && db.tickets[t].seat == seat))
      ensures result.Ok? || result.error in {NotFound, Forbidden, Rejected}
      ensures db.seats == if result.Ok? then old(db.seats) - {seat} else old(db.seats)
      ensures redis.entries == if result.Ok? then old(redis.entries) - KeysFor({old(db.seats)[seat].section})
              else old(redis.entries)
    {
      if seat !in db.seats { return Err(NotFound); }
      var section := db.seats[seat].section;
      if db.events[db.sections[section].event].organizer != organizer { return Err(Forbidden); }
      if (exists r :: r in db.reservations && db.reservations[r].seat == seat) ||
          SeatTicketed(db.Contents(), seat) { return Err(Rejected); }
      ghost var before := db.seats;
      db.seats := db.seats - {seat};
      InvalidateSeatAvailability(redis, [Some(section)]);
      assert Named([Some(section)]) == {section};
      DroppedKeepsExact(old(redis.entries), redis.now, before, db.seats, {section});
      return Ok(());
    }
  }

  /** The foreign keys from a seat up to its event. */
  predicate SeatRooted(db: Db, seat: Id) {
    seat in db.seats ==> db.seats[seat].section in db.sections && db.sections[db.seats[seat].section].event in db.events
  }

  function RemoveBy(db: Db, seat: Id, organizer: Id): (Db, Result<()>)
    requires SeatRooted(db, seat)
  {
    if seat in db.seats && db.events[db.sections[db.seats[seat].section].event].organizer != organizer then
        (db, Err(Forbidden))
    else RemoveSeat(db, seat)
  }

  function SectionSeats(seats: map<Id, Seat>, section: Id): set<Id> {
    set s | s in seats && seats[s].section == section
  }

  /** The seat_number column with the new rows. */
  function Numbered(numbers: map<Id, string>, seatNumbers: seq<string>, ids: seq<Id>): map<Id, string>
    requires |ids| == |seatNumbers|
    decreases |ids|
  {
    if ids == [] then numbers else Numbered(numbers[ids[0] := seatNumbers[0]], seatNumbers[1..], ids[1..])
  }

  lemma {:induction false} NumberedAt(numbers: map<Id, string>, seatNumbers: seq<string>, ids: seq<Id>)
    requires |ids| == |seatNumbers| && NoDuplicates(ids)
    ensures var after := Numbered(numbers, seatNumbers, ids);
            && (forall i :: 0 <= i < |ids| ==> ids[i] in after && after[ids[i]] == seatNumbers[i])
            && (forall s :: s !in ids ==> (s in after <==> s in numbers) && (s in numbers ==> after[s] == numbers[s]))
    decreases |ids|
  {
    if ids != [] {
      NumberedAt(numbers[ids[0] := seatNumbers[0]], seatNumbers[1..], ids[1..]);
      assert ids[0] !in ids[1..];
      forall i | 0 < i < |ids| ensures ids[i] == ids[1..][i - 1] && seatNumbers[i] == seatNumbers[1..][i - 1] {}
      assert forall s :: s in ids <==> s == ids[0] || s in ids[1..];
    }
  }

  lemma NumbersStayUnique(collate: Collation, db: Db, numbers: map<Id, string>, section: Id, seatNumbers: seq<string>,
                          ids: seq<Id>)
    requires |ids| == |seatNumbers| && NoDuplicates(ids) && Elements(ids) !! db.seats.Keys
    requires NumbersUnique(collate, db.seats, numbers) &&
            !NumbersClash(collate, db.seats, numbers, section, seatNumbers)
    ensures var after := Numbered(numbers, seatNumbers, ids);
            && NumbersUnique(collate, AddSeats(db, section, Elements(ids)).seats, after)
            && (forall i :: 0 <= i < |ids| ==> ids[i] in after && after[ids[i]] == seatNumbers[i])
            && (forall s :: s in db.seats ==> s in after && after[s] == numbers[s])
  {
    NumberedAt(numbers, seatNumbers, ids);
    var after := Numbered(numbers, seatNumbers, ids);
    var seats := AddSeats(db, section, Elements(ids)).seats;
    forall s | s in db.seats ensures s !in ids { assert s in ids ==> s in Elements(ids); }
    forall s, q | s in seats && q in seats && seats[s].section == seats[q].section &&
        collate(after[s]) == collate(after[q])
        ensures s == q {
      NumbersDiffer(collate, db, numbers, section, seatNumbers, ids, after, s, q);
    }
  }

  /** Two seats of one section with one number, among the old and the new. */
  lemma NumbersDiffer(collate: Collation, db: Db, numbers: map<Id, string>, section: Id, seatNumbers: seq<string>,
                      ids: seq<Id>,
                      after: map<Id, string>, s: Id, q: Id)
    requires |ids| == |seatNumbers| && NumbersUnique(collate, db.seats, numbers) &&
            !NumbersClash(collate, db.seats, numbers, section, seatNumbers)
    requires forall i :: 0 <= i < |ids| ==> ids[i] in after && after[ids[i]] == seatNumbers[i]
    requires forall x :: x in db.seats ==> x !in ids && x in after && after[x] == numbers[x]
    requires var seats := AddSeats(db, section, Elements(ids)).seats;
             s in seats && q in seats && seats[s].section == seats[q].section && s in after && q in after &&
             collate(after[s]) == collate(after[q])
    ensures s == q
  {
    var i :| s in ids ==> 0 <= i < |ids| && ids[i] == s;
    var j :| q in ids ==> 0 <= j < |ids| && ids[j] == q;
    assert s in ids || s in db.seats;
    assert q in ids || q in db.seats;
  }

  lemma SeatsAdded(seats: map<Id, Seat>, after: map<Id, Seat>, section: Id, ids: set<Id>)
    requires ids !! seats.Keys && after.Keys == seats.Keys + ids
    requires forall s :: s in seats ==> after[s] == seats[s]
    requires forall s :: s in ids ==> after[s] == Seat(section, Available)
    ensures AlikeOutside(seats, after, {section}) &&
            |SectionSeats(after, section)| == |SectionSeats(seats, section)| + |ids|
  {
    SameElsewhere(seats, after, section, ids);
    var old', new' := SectionSeats(seats, section), SectionSeats(after, section);
    assert new' == old' + ids;
  }

  /** The new seats are available seats of the section; the others stay. */
  lemma AddedSeats(db: Db, section: Id, ids: set<Id>)
    requires ids !! db.seats.Keys
    ensures var seats := AddSeats(db, section, ids).seats;
            && seats.Keys == db.seats.Keys + ids
            && (forall s :: s in ids ==> seats[s] == Seat(section, Available))
            && (forall s :: s in db.seats ==> seats[s] == db.seats[s])
    ensures SectionSeats(db.seats, section) == set s | s in db.seats && db.seats[s].section == section
  {
  }

  lemma BulkAdds(db: Db, section: Id, ids: set<Id>)
    requires ids !! db.seats.Keys
    ensures var after := AddSeats(db, section, ids);
            && after == db.(seats := after.seats)
            && AlikeOutside(db.seats, after.seats, {section})
            && |SectionSeats(after.seats, section)| == |SectionSeats(db.seats, section)| + |ids|
  {
    SeatsAdded(db.seats, AddSeats(db, section, ids).seats, section, ids);
  }

  lemma SameElsewhere(seats: map<Id, Seat>, after: map<Id, Seat>, section: Id, ids: set<Id>)
    requires ids !! seats.Keys && after.Keys == seats.Keys + ids
    requires forall s :: s in seats ==> after[s] == seats[s]
    requires forall s :: s in ids ==> after[s] == Seat(section, Available)
    ensures AlikeOutside(seats, after, {section})
  {
  }
}
