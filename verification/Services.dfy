/**
 * The booking services as they run: statements that update the tables in place, proved against the functions of
 * Booking.
 */
module Services {
  import opened Text
  import opened Tables
  import opened Booking
  import opened KeyValue
  import opened Agreement
  import opened Invariant
  import opened Sweeps
  import opened SeatCounts
  import opened Store
  import opened Availability

  function ResultWith<T, U>(outcome: Result<T>, value: U): Result<U> {
    match outcome case Ok(_) => Ok(value) case Err(e) => Err(e)
  }

  /** The assignment of generated ids to the rows of a loop. */
  function HoldsOf(ids: seq<Id>, rows: seq<Id>): map<Id, Id>
    requires |ids| == |rows| && NoDuplicates(ids)
  {
    map i | 0 <= i < |ids| :: ids[i] := rows[i]
  }

  lemma HoldsOfPrefix(ids: seq<Id>, rows: seq<Id>, k: nat)
    requires |ids| == |rows| && NoDuplicates(ids) && k < |ids|
    ensures HoldsOf(ids[..k + 1], rows[..k + 1]) == HoldsOf(ids[..k], rows[..k])[ids[k] := rows[k]]
  {
    var longer, shorter := HoldsOf(ids[..k + 1], rows[..k + 1]), HoldsOf(ids[..k], rows[..k]);
    assert ids[..k + 1] == ids[..k] + [ids[k]];
    assert rows[..k + 1] == rows[..k] + [rows[k]];
    assert forall r :: r in longer <==> r in shorter || r == ids[k];
  }

  class ReservationsService {
    const db: Database
    const redis: Redis

    constructor (db: Database, redis: Redis)
      ensures this.db == db && this.redis == redis
    {
      this.db, this.redis := db, redis;
    }

    /** The guards of create, over the found rows in database order. */
    method CheckSeats(wanted: set<Id>, rows: seq<Id>) returns (failure: Option<Error>)
      requires Returns(rows, wanted * db.seats.Keys)
      ensures failure == ReserveCheck(db.Contents(), wanted)
      ensures failure == Some(NotFound) <==> exists s :: s in wanted && s !in db.seats
      ensures failure == Some(Conflict) <==>
              && (forall s :: s in wanted ==> s in db.seats)
              && exists s :: s in wanted && (db.seats[s].status != Available || !OnSale(db.Contents(), s))
      ensures failure.None? || failure.value in {NotFound, Conflict}
      ensures failure.None? ==> Elements(rows) == wanted && wanted <= db.seats.Keys
    {
      DistinctCount(rows);
      AllFoundIff(wanted, db.seats.Keys);
      assert wanted <= db.seats.Keys ==> wanted * db.seats.Keys == wanted;
      if |rows| != |wanted| {
        return Some(NotFound);
      }
      if exists s :: s in rows && db.seats[s].status != Available {
        return Some(Conflict);
      }
      if exists s :: s in rows && !OnSale(db.Contents(), s) {
        return Some(Conflict);
      }
      return None;
    }

    method MarkReserved(rows: seq<Id>)
      requires NoDuplicates(rows) && forall s :: s in rows ==> s in db.seats
      modifies db`seats
      ensures db.seats == ReservedSeats(old(db.seats), Elements(rows))
    {
      ghost var before := db.seats;
      var i := 0;
      while i < |rows|
        invariant 0 <= i <= |rows|
        invariant db.seats == ReservedSeats(before, Elements(rows[..i]))
      {
        assert rows[i] in rows;
        db.seats := db.seats[rows[i] := db.seats[rows[i]].(status := Reserved)];
        i := i + 1;
      }
      assert rows[..|rows|] == rows;
    }

    method BuildReservations(user: Id, rows: seq<Id>, ids: seq<Id>, now: int) returns (created: map<Id, Reservation>)
      requires |ids| == |rows| && NoDuplicates(ids)
      ensures created == NewReservations(user, HoldsOf(ids, rows), now)
    {
      created := map[];
      var i := 0;
      while i < |rows|
        invariant 0 <= i <= |rows|
        invariant created == NewReservations(user, HoldsOf(ids[..i], rows[..i]), now)
      {
        NewRowsPrefix(ids, rows, i, user, now);
        created := created[ids[i] := Reservation(user, rows[i], Pending, now + RESERVATION_TTL_SECONDS)];
        i := i + 1;
      }
      assert ids[..|rows|] == ids && rows[..|rows|] == rows;
    }

    /**
     * Reserves the seats, found in the order `rows`, under the generated `ids`; a failure rolls back and drops no
     * count.
     */
    method Create(user: Id, seatIds: seq<Id>, rows: seq<Id>, ids: seq<Id>, now: int) returns (result: Result<seq<Id>>)
      requires Returns(rows, Elements(seatIds) * db.seats.Keys)
      requires |ids| == |rows| && NoDuplicates(ids)
      modifies db, redis`entries
      ensures db.Contents() ==
              CreateReservations(old(db.Contents()), user, Elements(seatIds), HoldsOf(ids, rows), now).0
      ensures result ==
              ResultWith(CreateReservations(old(db.Contents()), user, Elements(seatIds), HoldsOf(ids, rows), now).1,
              ids)
      ensures result.Ok? || result.error in {NotFound, Conflict, Rejected}
      ensures result == Err(NotFound) <==> exists s :: s in seatIds && s !in old(db.seats)
      ensures var was := old(db.Contents());
              result == Err(Conflict) <==>
              && (forall s :: s in seatIds ==> s in was.seats)
              && !(forall s :: s in seatIds ==>
                       was.seats[s].status == Available &&
                       var x := was.seats[s].section;
                       x in was.sections && was.sections[x].event in was.events &&
                       was.events[was.sections[x].event].status == Published)
      ensures var was := old(db.Contents());
              result == Err(Rejected) <==>
              && (forall s :: s in seatIds ==>
                    s in was.seats && was.seats[s].status == Available &&
                    var x := was.seats[s].section;
                    x in was.sections && was.sections[x].event in was.events &&
                    was.events[was.sections[x].event].status == Published)
              && ((exists r :: r in was.reservations && was.reservations[r].seat in seatIds) ||
                  (seatIds != [] && user !in was.users))
      ensures result.Err? ==> db.Contents() == old(db.Contents())
      ensures result.Ok? ==>
              && result.value == ids && Elements(rows) == Elements(seatIds)
              && db.Contents() == old(db.Contents()).(seats := db.seats, reservations := db.reservations)
              && db.seats.Keys == old(db.seats).Keys
              && (forall s :: s in db.seats ==>
                    db.seats[s] == if s in seatIds then old(db.seats)[s].(status := Reserved) else old(db.seats)[s])
              && db.reservations.Keys == old(db.reservations).Keys + Elements(ids)
              && (forall i :: 0 <= i < |ids| ==>
                    db.reservations[ids[i]] == Reservation(user, rows[i], Pending, now + 600))
              && (forall r :: r in old(db.reservations) && r !in ids ==> db.reservations[r] == old(db.reservations)[r])
      ensures redis.entries == old(redis.entries) - KeysFor(ReserveDrops(old(db.Contents()), user, Elements(seatIds)))
      ensures old(CacheExact(redis.entries, redis.now, db.seats)) ==> CacheExact(redis.entries, redis.now, db.seats)
    {
      ghost var before := db.Contents();
      ReserveAnswers(before, user, seatIds, HoldsOf(ids, rows), now);
      ReserveEffect(before, user, seatIds, rows, ids, now);
      NothingDropped(redis.entries);
      result := ReserveInTransaction(user, seatIds, rows, ids, now);
      if result.Ok? {
        SameSections(before.seats, db.seats, Elements(seatIds));
        SectionsListed(db.seats, Elements(seatIds), rows);
        InvalidateSeatAvailability(redis, SectionIds(db.seats, rows));
        HoldsValues(ids, rows);
        ReserveAlike(before, user, Elements(seatIds), HoldsOf(ids, rows), now);
        KeepsExactIfSo(old(redis.entries), redis.now, before.seats, db.seats,
            ReserveDrops(before, user, Elements(seatIds)));
      }
    }

    method ReserveInTransaction(user: Id, seatIds: seq<Id>, rows: seq<Id>, ids: seq<Id>,
                                now: int) returns (result: Result<seq<Id>>)
      requires Returns(rows, Elements(seatIds) * db.seats.Keys)
      requires |ids| == |rows| && NoDuplicates(ids)
      modifies db
      ensures db.Contents() ==
              CreateReservations(old(db.Contents()), user, Elements(seatIds), HoldsOf(ids, rows), now).0
      ensures result ==
              ResultWith(CreateReservations(old(db.Contents()), user, Elements(seatIds), HoldsOf(ids, rows), now).1,
              ids)
      ensures result.Ok? ==> Elements(rows) == Elements(seatIds) && forall s :: s in rows ==> s in db.seats
      ensures result.Err? ==>
              db.Contents() == old(db.Contents()) && ReserveDrops(old(db.Contents()), user, Elements(seatIds)) == {}
      ensures result.Ok? ==>
              ReserveDrops(old(db.Contents()), user, Elements(seatIds)) == SectionsOf(old(db.seats), Elements(seatIds))
      ensures SectionsKept(old(db.seats), db.seats)
    {
      ghost var before := db.Contents();
      var distinct := Elements(seatIds);
      var failure := CheckSeats(distinct, rows);
      if failure.Some? {
        return Err(failure.value);
      }
      var savedSeats := db.seats;
      assert forall s :: s in rows ==> s in Elements(rows);
      MarkReserved(rows);
      var created := BuildReservations(user, rows, ids, now);
      InsertHoldsParts(before, user, ids, rows, now);
      if HoldsInsertable(db.Contents(), user, distinct) {
        db.reservations := db.reservations + created;
        return Ok(ids);
      } else {
        db.seats := savedSeats;
        return Err(Rejected);
      }
    }

    /** Looks the reservation up, then runs the transaction. */
    method Cancel(user: Id, r: Id) returns (result: Result<()>)
      modifies db, redis`entries
      ensures (db.Contents(), result) == CancelReservation(old(db.Contents()), user, r)
      ensures result == Err(NotFound) <==> r !in old(db.reservations)
      ensures result == Err(Forbidden) <==> r in old(db.reservations) && old(db.reservations)[r].user != user
      ensures result == Err(Conflict) <==>
              && r in old(db.reservations) && old(db.reservations)[r].user == user
              && old(db.reservations)[r].status != Pending
      ensures result.Ok? || result.error in {NotFound, Forbidden, Conflict}
      ensures result.Err? ==> db.Contents() == old(db.Contents())
      ensures result.Ok? ==>
              && db.Contents() == old(db.Contents()).(reservations := db.reservations, seats := db.seats)
              && db.reservations == old(db.reservations)[r := old(db.reservations)[r].(status := Expired)]
              && db.seats.Keys == old(db.seats).Keys
              && forall s :: s in db.seats ==>
                   db.seats[s] ==
                   if s == old(db.reservations)[r].seat && old(db.seats)[s].status == Reserved
                   then old(db.seats)[s].(status := Available) else old(db.seats)[s]
      ensures redis.entries == old(redis.entries) - KeysFor(CancelDrops(old(db.Contents()), user, r))
      ensures old(CacheExact(redis.entries, redis.now, db.seats)) ==> CacheExact(redis.entries, redis.now, db.seats)
    {
      ghost var before := db.Contents();
      NothingDropped(redis.entries);
      var failure := FindForCancel(user, r);
      if failure.Some? {
        return Err(failure.value);
      }
      var released;
      result, released := CancelTransaction(r);
      if released.Some? {
        InvalidateSeatAvailability(redis, [released]);
        assert Named([released]) == {released.value};
      }
      KeepsExactIfSo(old(redis.entries), redis.now, before.seats, db.seats, CancelDrops(before, user, r));
    }

    method FindForCancel(user: Id, r: Id) returns (failure: Option<Error>)
      ensures failure == CancelRead(db.Contents(), user, r)
    {
      if r !in db.reservations { return Some(NotFound); }
      if db.reservations[r].user != user { return Some(Forbidden); }
      if db.reservations[r].status != Pending { return Some(Conflict); }
      return None;
    }

    /** The transaction, on the row read again; gives the section whose seat it released. */
    method CancelTransaction(r: Id) returns (result: Result<()>, released: Option<Id>)
      modifies db
      ensures (db.Contents(), result) == CancelLocked(old(db.Contents()), r)
      ensures released == if result.Ok? && SeatReserved(old(db.Contents()), old(db.reservations)[r].seat)
                          then Some(old(db.seats)[old(db.reservations)[r].seat].section) else None
    {
      if r !in db.reservations || db.reservations[r].status != Pending { return Err(Conflict), None; }
      var row := db.reservations[r];
      released := None;
      db.reservations := db.reservations[r := row.(status := Expired)];
      if row.seat in db.seats && db.seats[row.seat].status == Reserved {
        released := Some(db.seats[row.seat].section);
        db.seats := db.seats[row.seat := db.seats[row.seat].(status := Available)];
      }
      assert db.seats == UpdateSeats(old(db.seats), {row.seat}, Reserved, Available);
      result := Ok(());
    }

    /** The find of expireOverdue, outside the transaction. */
    method FindOverdue(now: int) returns (found: map<Id, Stale>)
      ensures found == Snapshot(db.Contents(), now)
    {
      found := Snapshot(db.Contents(), now);
    }

    /** The transaction of expireOverdue over the rows as they were read, in any order. */
    method ExpireRows(found: map<Id, Stale>, order: seq<Id>)
      requires Returns(order, found.Keys) && forall r :: r in found ==> r in db.reservations
      modifies db
      ensures db.Contents() == ApplySnapshot(old(db.Contents()), found)
    {
      ghost var before := db.Contents();
      RestrictedEnds(before, found, order);
      var i := 0;
      while i < |order|
        invariant 0 <= i <= |order|
        invariant db.Contents() == ApplySnapshot(before, Restricted(found, order[..i]))
      {
        assert order[i] in Elements(order);
        AppliedOneMore(before, found, order, i);
        SaveStale(order[i], found[order[i]]);
        i := i + 1;
      }
    }

    method SaveStale(r: Id, stale: Stale)
      modifies db
      ensures db.Contents() == StaleSaved(old(db.Contents()), r, stale)
    {
      db.reservations := db.reservations[r := stale.row.(status := Expired)];
      if stale.seat.Some? && stale.seat.value.status == Reserved && stale.row.seat in db.seats {
        db.seats := db.seats[stale.row.seat := db.seats[stale.row.seat].(status := Available)];
      }
    }

    /** Find and transaction, and the counts of the sections the rows were read with. */
    method ExpireOverdue(now: int, order: seq<Id>)
      requires Returns(order, Overdue(db.Contents(), now))
      modifies db, redis`entries
      ensures db.Contents() == Booking.ExpireOverdue(old(db.Contents()), now)
      ensures Swept(old(db.Contents()), db.Contents(), now)
      ensures redis.entries == old(redis.entries) - KeysFor(SweepDrops(old(db.Contents()), now))
      ensures old(CacheExact(redis.entries, redis.now, db.seats)) ==> CacheExact(redis.entries, redis.now, db.seats)
    {
      ghost var before := db.Contents();
      var found := FindOverdue(now);
      assert found.Keys == Overdue(before, now);
      SweepAsRead(before, now, order);
      if |found| == 0 {
        assert found == map[];
        return;
      }
      assert forall r :: r in order <==> r in Elements(order);
      var sectionIds := StaleSections(found, order);
      ExpireRows(found, order);
      InvalidateSeatAvailability(redis, sectionIds);
      KeepsExactIfSo(old(redis.entries), redis.now, before.seats, db.seats, SweepDrops(before, now));
    }

    /**
     * Expires lazily, then lists newest first: the caller never sees a pending reservation past its deadline.
     */
    method MyReservations(user: Id, now: int, order: seq<Id>) returns (mine: seq<Id>)
      requires Returns(order, Overdue(db.Contents(), now))
      modifies db, redis`entries
      ensures db.Contents() == Booking.ExpireOverdue(old(db.Contents()), now)
      ensures redis.entries == old(redis.entries) - KeysFor(SweepDrops(old(db.Contents()), now))
      ensures NoDuplicates(mine)
      ensures forall r :: r in mine <==> r in db.reservations && db.reservations[r].user == user
      ensures forall i, j :: 0 <= i < j < |mine| ==>
                CreatedAt(db.reservations[mine[i]]) >= CreatedAt(db.reservations[mine[j]])
      ensures forall r :: r in mine && r in db.reservations && db.reservations[r].status == Pending ==>
                db.reservations[r].expiresAt >= now
    {
      ExpireOverdue(now, order);
      mine := FindNewestFirst(Created(db.reservations, user));
      assert forall r :: r in mine <==> r in Elements(mine);
    }
  }

  class TicketsService {
    const db: Database

    constructor (db: Database)
      ensures this.db == db
    {
      this.db := db;
    }

    /** Writes one ticket per found reservation, whatever its status, outside any transaction. */
    method GenerateForReservations(user: Id, event: Id, rows: seq<Id>, ids: seq<Id>) returns (result: Result<seq<Id>>)
      requires |rows| == |ids| && forall r :: r in rows ==> r in db.reservations
      modifies db`tickets
      ensures event !in db.events || user !in db.users ==>
              db.Contents() == old(db.Contents()) && result == Err(NotFound)
      ensures event in db.events && user in db.users ==>
              db.Contents() == IssueTickets(old(db.Contents()), user, event, rows, ids)
      ensures event in db.events && user in db.users ==>
              exists n :: Generated(db.reservations, old(db.tickets), db.tickets, user, event, rows, ids, n, result)
    {
      if event !in db.events { return Err(NotFound); }
      if user !in db.users { return Err(NotFound); }
      ghost var before := db.Contents();
      var i := 0;
      while i < |rows|
        invariant 0 <= i <= |rows|
        invariant db.Contents() == before.(tickets := db.tickets)
        invariant IssueTickets(db.Contents(), user, event, rows[i..], ids[i..]) ==
                IssueTickets(before, user, event, rows, ids)
        invariant Written(db.reservations, before.tickets, db.tickets, user, event, rows, ids, i)
      {
        IssueNext(db.Contents(), user, event, rows, ids, i);
        var seat := db.reservations[rows[i]].seat;
        if Ticketed(db.Contents(), rows[i]) || SeatTicketed(db.Contents(), seat) || ids[i] in db.tickets {
          assert Generated(db.reservations, before.tickets, db.tickets, user, event, rows, ids, i, Err(Rejected));
          return Err(Rejected);
        }
        WrittenOneMore(db.reservations, before.tickets, db.tickets, user, event, rows, ids, i);
        db.tickets := db.tickets[ids[i] := Ticket(rows[i], user, event, seat, false, false)];
        i := i + 1;
      }
      assert Generated(db.reservations, before.tickets, db.tickets, user, event, rows, ids, |rows|, Ok(ids));
      return Ok(ids);
    }

    /**
     * The user's tickets counted by event, the events in the order of their first tickets; `order` is the order of the
     * query.
     */
    method MyTicketEvents(user: Id, order: seq<Id>) returns (groups: seq<EventGroup>)
      requires Returns(order, TicketsOf(db.tickets, user))
      ensures GroupedByEvent(db.tickets, db.events.Keys, user, order, groups)
    {
      assert forall t :: t in order <==> t in Elements(order);
      var keys: seq<Id>, grouped: map<Id, nat> := [], map[];
      var i := 0;
      while i < |order|
        invariant 0 <= i <= |order|
        invariant Tallied(db.tickets, db.events.Keys, order[..i], keys, grouped)
      {
        assert order[i] in db.tickets by { assert order[i] in order; }
        var e := db.tickets[order[i]].event;
        TallyOne(db.tickets, db.events.Keys, order, i, keys, grouped);
        if e in db.events {
          if e in grouped {
            grouped := grouped[e := grouped[e] + 1];
          } else {
            keys, grouped := keys + [e], grouped[e := 1];
          }
        }
        i := i + 1;
      }
      assert order[..|order|] == order;
      groups := GroupsOf(keys, grouped);
      GroupsAre(db.tickets, db.events.Keys, user, order, keys, grouped);
    }

    /** A door scan: admits a ticket once. */
    method Validate(qr: QrPayload, scanner: Id) returns (result: Result<bool>)
      modifies db`tickets
      ensures (db.Contents(), result) == ValidateTicket(old(db.Contents()), qr, scanner)
      ensures result == Ok(false) <==> qr.Signed? && Admissible(old(db.Contents()), qr.ticket, scanner)
      ensures result == Ok(true) <==>
              && qr.Signed? && OfOwnEvent(old(db.Contents()), qr.ticket, scanner)
              && !old(db.tickets)[qr.ticket].isRefunded && old(db.tickets)[qr.ticket].isUsed
      ensures result == Err(Unauthorized) <==>
              || qr.Forged?
              || (qr.Signed? && OfOwnEvent(old(db.Contents()), qr.ticket, scanner) &&
                  old(db.tickets)[qr.ticket].isRefunded)
      ensures result == Err(Forbidden) <==>
              && qr.Signed? && qr.ticket in db.tickets && old(db.tickets)[qr.ticket].event in db.events
              && db.events[old(db.tickets)[qr.ticket].event].organizer != scanner
      ensures result == Err(NotFound) <==> qr.Signed? && qr.ticket !in old(db.tickets)
      ensures result == Err(Invalid) <==> qr.Unreadable?
      ensures result == Err(Crash) <==>
              qr.Signed? && qr.ticket in db.tickets && old(db.tickets)[qr.ticket].event !in db.events
      ensures result == Ok(false) ==>
              db.tickets == old(db.tickets)[qr.ticket := old(db.tickets)[qr.ticket].(isUsed := true)]
      ensures result != Ok(false) ==> db.tickets == old(db.tickets)
      ensures !(qr.Signed? && Admissible(db.Contents(), qr.ticket, scanner))
    {
      if qr.Unreadable? { return Err(Invalid); }
      if qr.Forged? { return Err(Unauthorized); }
      if qr.ticket !in db.tickets { return Err(NotFound); }
      var ticket := db.tickets[qr.ticket];
      if ticket.event !in db.events { return Err(Crash); }
      if db.events[ticket.event].organizer != scanner { return Err(Forbidden); }
      if ticket.isRefunded { return Err(Unauthorized); }
      if ticket.isUsed { return Ok(true); }
      db.tickets := db.tickets[qr.ticket := ticket.(isUsed := true)];
      return Ok(false);
    }
  }

  class WebhooksService {
    const db: Database
    const redis: Redis
    const ticketsService: TicketsService

    constructor (db: Database, redis: Redis)
      ensures this.db == db && this.redis == redis && ticketsService.db == db
    {
      this.db, this.redis := db, redis;
      this.ticketsService := new TicketsService(db);
    }

    /** The marker row is written before the handler runs, so a second delivery changes nothing. */
    method HandleBachsWebhook(ev: WebhookEvent, rows: seq<Id>, ids: seq<Id>)
      requires ticketsService.db == db && RowsFor(db.Contents(), ev, rows, ids)
      modifies db, redis`entries
      ensures db.Contents() == HandleWebhook(old(db.Contents()), ev, rows, ids)
      ensures redis.entries == old(redis.entries) - KeysFor(WebhookDrops(old(db.Contents()), ev))
      ensures old(CacheExact(redis.entries, redis.now, db.seats)) ==> CacheExact(redis.entries, redis.now, db.seats)
    {
      ghost var before := db.Contents();
      NothingDropped(redis.entries);
      if ev.id in db.processed {
        return;
      }
      db.processed := db.processed + {ev.id};
      match ev.kind {
        case CollectionSucceeded => PaymentSucceeded(ev, rows, ids);
        case CollectionFailed => ReleaseOrder(ev);
        case CheckoutExpired => ReleaseOrder(ev);
        case RefundCreated =>
        case RefundPaid => RefundPaid(ev);
        case Unhandled =>
      }
      DeliverAlike(before, ev, rows, ids);
      KeepsExactIfSo(old(redis.entries), redis.now, before.seats, db.seats, WebhookDrops(before, ev));
    }

    /** A second call changes nothing: the payment row would break its unique key. */
    method PaymentSucceeded(ev: WebhookEvent, rows: seq<Id>, ids: seq<Id>)
      requires ticketsService.db == db && RowsFor(db.Contents(), ev, rows, ids)
      modifies db, redis`entries
      ensures db.Contents() == OnPaymentSucceeded(old(db.Contents()), ev, rows, ids)
      ensures redis.entries == old(redis.entries) -
                KeysFor(PaymentDrops(old(db.Contents()), ev))
      ensures var (was, m) := (old(db.Contents()), ev.metadata);
              if m.reservationIds == "" || m.seatIds == "" || Refused(was, ev) then db.Contents() == was
              else
                var amount := if ev.amount.Some? then ev.amount.value else 0;
                && RowsMoved(was.reservations, db.reservations, m.reservationIds, Pending, Confirmed)
                && SeatsMoved(was.seats, db.seats, m.seatIds, Reserved, Booked)
                && db.payments == was.payments + [Payment(m.userId, amount, ev.reference, Successful, ev.id)]
                && db.Contents() == was.(reservations := db.reservations, seats := db.seats, payments := db.payments,
                                         tickets := db.tickets)
                && if m.userId.Some? && m.eventId.Some? && m.eventId.value in was.events then
                     exists n, result :: Generated(db.reservations, was.tickets, db.tickets, m.userId.value,
                                           m.eventId.value, rows, ids, n, result)
                   else db.tickets == was.tickets
      ensures HasOrderIds(ev.metadata) ==> !PaymentInsertable(db.Contents(), ev)
      ensures SeatsFollow(old(db.Contents()), ev.metadata) && Agree(old(db.Contents())) ==> Agree(db.Contents())
    {
      ghost var before := db.Contents();
      NothingDropped(redis.entries);
      if !HasOrderIds(ev.metadata) || !PaymentInsertable(db.Contents(), ev) {
        return;
      }
      var seats := SeatsIn(db.Contents(), ev.metadata);
      CommitPayment(ev);
      assert forall r :: r in rows ==> r in Elements(rows);
      SectionsAfterUpdate(before.seats, seats, Reserved, Booked);
      InvalidateSeatAvailabilityBySeatIds(db, redis, seats);
      if ev.metadata.userId.Some? && ev.metadata.eventId.Some? {
        var _ := ticketsService.GenerateForReservations(ev.metadata.userId.value, ev.metadata.eventId.value, rows, ids);
      }
      PaymentLeaves(before, ev, rows, ids);
    }

    /** The transaction of a payment row that can be inserted. */
    method CommitPayment(ev: WebhookEvent)
      modifies db
      ensures db.Contents() == RecordPayment(old(db.Contents()), ev)
      ensures var (was, m) := (old(db.Contents()), ev.metadata);
              var amount := if ev.amount.Some? then ev.amount.value else 0;
              && RowsMoved(was.reservations, db.reservations, m.reservationIds, Pending, Confirmed)
              && SeatsMoved(was.seats, db.seats, m.seatIds, Reserved, Booked)
              && db.payments == was.payments + [Payment(m.userId, amount, ev.reference, Successful, ev.id)]
              && db.Contents() == was.(reservations := db.reservations, seats := db.seats, payments := db.payments)
    {
      ghost var before := db.Contents();
      var paid, seats := ReservationsIn(db.Contents(), ev.metadata), SeatsIn(db.Contents(), ev.metadata);
      db.reservations := UpdateReservations(db.reservations, paid, Pending, Confirmed);
      db.seats := UpdateSeats(db.seats, seats, Reserved, Booked);
      db.payments := db.payments + [Payment(ev.metadata.userId, AmountOf(ev), ev.reference, Successful, ev.id)];
      UpdatesMove(before, ev.metadata, Pending, Confirmed, Reserved, Booked);
    }

    /**
     * Releasing twice is releasing once; the tables stay in agreement when the listed seats are those of the listed
     * reservations.
     */
    method ReleaseOrder(ev: WebhookEvent)
      modifies db, redis`entries
      ensures db.Contents() == ReleaseHold(old(db.Contents()), ev)
      ensures redis.entries == old(redis.entries) - KeysFor(OrderSections(old(db.Contents()), ev.metadata))
      ensures var (was, m) := (old(db.Contents()), ev.metadata);
              if m.reservationIds == "" || m.seatIds == "" then db.Contents() == was
              else
                && RowsMoved(was.reservations, db.reservations, m.reservationIds, Pending, Expired)
                && SeatsMoved(was.seats, db.seats, m.seatIds, Reserved, Available)
                && db.Contents() == was.(reservations := db.reservations, seats := db.seats)
      ensures ReleaseHold(db.Contents(), ev) == db.Contents()
      ensures SeatsFollow(old(db.Contents()), ev.metadata) && Agree(old(db.Contents())) ==> Agree(db.Contents())
    {
      ghost var before := db.Contents();
      NothingDropped(redis.entries);
      if !HasOrderIds(ev.metadata) {
        return;
      }
      var held, seats := ReservationsIn(db.Contents(), ev.metadata), SeatsIn(db.Contents(), ev.metadata);
      db.reservations := UpdateReservations(db.reservations, held, Pending, Expired);
      db.seats := UpdateSeats(db.seats, seats, Reserved, Available);
      SectionsAfterUpdate(before.seats, seats, Reserved, Available);
      InvalidateSeatAvailabilityBySeatIds(db, redis, seats);
      ReleaseLeaves(before, ev);
      UpdatesMove(before, ev.metadata, Pending, Expired, Reserved, Available);
    }

    /** Refunding twice is refunding once; the tables stay in agreement as for a release. */
    method RefundPaid(ev: WebhookEvent)
      modifies db, redis`entries
      ensures db.Contents() == OnRefundPaid(old(db.Contents()), ev)
      ensures redis.entries == old(redis.entries) - KeysFor(OrderSections(old(db.Contents()), ev.metadata))
      ensures var (was, m) := (old(db.Contents()), ev.metadata);
              if m.reservationIds == "" || m.seatIds == "" then db.Contents() == was
              else
                && RowsMoved(was.reservations, db.reservations, m.reservationIds, Confirmed, Refunded)
                && SeatsMoved(was.seats, db.seats, m.seatIds, Booked, Available)
                && PaymentsReturned(was.payments, db.payments, m.userId)
                && TicketsRefunded(was, db.tickets, m.reservationIds)
                && db.Contents() == was.(reservations := db.reservations, seats := db.seats, payments := db.payments,
                                         tickets := db.tickets)
      ensures OnRefundPaid(db.Contents(), ev) == db.Contents()
      ensures SeatsFollow(old(db.Contents()), ev.metadata) && Agree(old(db.Contents())) ==> Agree(db.Contents())
    {
      ghost var before := db.Contents();
      NothingDropped(redis.entries);
      if !HasOrderIds(ev.metadata) {
        return;
      }
      var refunded, seats := ReservationsIn(db.Contents(), ev.metadata), SeatsIn(db.Contents(), ev.metadata);
      db.reservations := UpdateReservations(db.reservations, refunded, Confirmed, Refunded);
      db.seats := UpdateSeats(db.seats, seats, Booked, Available);
      if ev.metadata.userId.Some? {
        db.payments := RefundPayments(db.payments, ev.metadata.userId.value);
      }
      db.tickets := RefundTickets(db.tickets, refunded);
      SectionsAfterUpdate(before.seats, seats, Booked, Available);
      InvalidateSeatAvailabilityBySeatIds(db, redis, seats);
      RefundLeaves(before, ev);
      UpdatesMove(before, ev.metadata, Confirmed, Refunded, Booked, Available);
      RefundsWrite(before, ev.metadata);
    }
  }

  class PaymentsService {
    const db: Database
    const redis: Redis
    const reservationsService: ReservationsService

    constructor (db: Database, redis: Redis)
      ensures this.db == db && this.redis == redis && reservationsService.db == db && reservationsService.redis == redis
    {
      this.db, this.redis := db, redis;
      this.reservationsService := new ReservationsService(db, redis);
    }

    /**
     * Checks, reserves the seats and mints the order the provider will echo; `rows` is the order of the seat queries.
     */
    method CreateCheckoutSession(user: Id, section: Id, seatIds: seq<Id>, rows: seq<Id>, ids: seq<Id>, now: int)
      returns (result: Result<Order>)
      requires reservationsService.db == db && reservationsService.redis == redis
      requires Returns(rows, Elements(seatIds) * db.seats.Keys)
      requires |ids| == |rows| && NoDuplicates(ids)
      modifies db, redis`entries
      ensures (db.Contents(), result) ==
              CreateCheckout(old(db.Contents()), user, section, seatIds, HoldsOf(ids, rows), ids, now)
      ensures redis.entries == old(redis.entries) - KeysFor(CheckoutDrops(old(db.Contents()), user, section, seatIds))
      ensures old(CacheExact(redis.entries, redis.now, db.seats)) ==> CacheExact(redis.entries, redis.now, db.seats)
    {
      NothingDropped(redis.entries);
      var failure := CheckOffer(section, seatIds, rows);
      if failure.Some? { return Err(failure.value); }
      result := ReserveAndMintOrder(user, section, db.sections[section], seatIds, rows, ids, now);
    }

    /** The guards, over the section row and the found seats. */
    method CheckOffer(section: Id, seatIds: seq<Id>, rows: seq<Id>) returns (failure: Option<Error>)
      requires Returns(rows, Elements(seatIds) * db.seats.Keys)
      ensures failure == CheckoutCheck(db.Contents(), section, seatIds)
    {
      if section !in db.sections { return Some(NotFound); }
      var row := db.sections[section];
      if row.productId.None? { return Some(BadRequest); }
      if row.event !in db.events || db.events[row.event].status != Published { return Some(BadRequest); }
      assert FoundSeats(db.Contents(), seatIds) == Elements(rows);
      DistinctCount(rows);
      if |rows| != |seatIds| { return Some(NotFound); }
      assert forall s :: s in rows <==> s in Elements(rows);
      if exists s :: s in rows && db.seats[s].section != section { return Some(BadRequest); }
      if exists s :: s in rows && db.seats[s].status != Available { return Some(Conflict); }
      return None;
    }

    /** The call to create, and the order under the section row that was read. */
    method ReserveAndMintOrder(user: Id, section: Id, row: Section, seatIds: seq<Id>, rows: seq<Id>, ids: seq<Id>,
                               now: int) returns (result: Result<Order>)
      requires reservationsService.db == db && reservationsService.redis == redis
      requires Returns(rows, Elements(seatIds) * db.seats.Keys)
      requires |ids| == |rows| && NoDuplicates(ids)
      modifies db, redis`entries
      ensures (db.Contents(), result) ==
              ReserveAndMint(old(db.Contents()), user, section, row, seatIds, HoldsOf(ids, rows), ids, now)
      ensures redis.entries == old(redis.entries) - KeysFor(ReserveDrops(old(db.Contents()), user, Elements(seatIds)))
      ensures old(CacheExact(redis.entries, redis.now, db.seats)) ==> CacheExact(redis.entries, redis.now, db.seats)
    {
      var reserved := reservationsService.Create(user, seatIds, rows, ids, now);
      if reserved.Err? { return Err(reserved.error); }
      if user !in db.users { return Err(NotFound); }
      if reserved.value == [] { return Err(Crash); }
      return Ok(Order(user, section, row.event, reserved.value, seatIds));
    }
  }

  /** When each of the user's reservations was made. */
  function Created(rows: map<Id, Reservation>, user: Id): map<Id, int> {
    map r | r in rows && rows[r].user == user :: CreatedAt(rows[r])
  }

  function TicketsOf(tickets: map<Id, Ticket>, user: Id): set<Id> {
    set t | t in tickets && tickets[t].user == user
  }

  datatype EventGroup = EventGroup(event: Id, ticketCount: nat)

  function GroupsOf(keys: seq<Id>, grouped: map<Id, nat>): (groups: seq<EventGroup>)
    requires forall e :: e in keys ==> e in grouped
    ensures |groups| == |keys| && forall i :: 0 <= i < |keys| ==> groups[i] == EventGroup(keys[i], grouped[keys[i]])
  {
    seq(|keys|, i requires 0 <= i < |keys| => assert keys[i] in keys; EventGroup(keys[i], grouped[keys[i]]))
  }

  /** The existing events of the tickets, in the tickets' order. */
  function EventsOf(tickets: map<Id, Ticket>, events: set<Id>, order: seq<Id>): seq<Id> {
    if order == [] then []
    else
      var before, t := EventsOf(tickets, events, order[..|order| - 1]), order[|order| - 1];
      if t in tickets && tickets[t].event in events then before + [tickets[t].event] else before
  }

  /** The elements in the order of their first occurrence. */
  function FirstSeen(q: seq<Id>): seq<Id> {
    if q == [] then []
    else
      var before, x := FirstSeen(q[..|q| - 1]), q[|q| - 1];
      if x in before then before else before + [x]
  }

  /** x occurs in q before y does. */
  ghost predicate OccursBefore(q: seq<Id>, x: Id, y: Id) {
    exists a: nat :: a < |q| && q[a] == x && y !in q[..a + 1]
  }

  lemma OccursBeforeStays(q: seq<Id>, z: Id, x: Id, y: Id)
    requires OccursBefore(q, x, y) || (x in q && y !in q)
    ensures OccursBefore(q + [z], x, y)
  {
    var a: nat :| a < |q| && q[a] == x && y !in q[..a + 1];
    assert (q + [z])[..a + 1] == q[..a + 1] && (q + [z])[a] == x;
  }

  /** Each element once, and each before the elements that occur only later. */
  lemma {:induction false} FirstSeenIs(q: seq<Id>)
    ensures NoDuplicates(FirstSeen(q)) && (forall x :: x in FirstSeen(q) <==> x in q)
    ensures forall i, j :: 0 <= i < j < |FirstSeen(q)| ==> OccursBefore(q, FirstSeen(q)[i], FirstSeen(q)[j])
  {
    if q != [] {
      var init, z := q[..|q| - 1], q[|q| - 1];
      FirstSeenIs(init);
      assert q == init + [z];
      var before := FirstSeen(init);
      assert FirstSeen(q) == if z in before then before else before + [z];
      forall i, j | 0 <= i < j < |FirstSeen(q)| ensures OccursBefore(q, FirstSeen(q)[i], FirstSeen(q)[j]) {
        assert FirstSeen(q)[i] == before[i] && before[i] in init;
        OccursBeforeStays(init, z, before[i], FirstSeen(q)[j]);
      }
    }
  }

  /** Ticket a of the list is for event x, and none up to it is for event y. */
  ghost predicate TicketBefore(tickets: map<Id, Ticket>, order: seq<Id>, a: int, x: Id, y: Id) {
    && 0 <= a < |order| && order[a] in tickets && tickets[order[a]].event == x
    && forall b :: 0 <= b <= a && order[b] in tickets ==> tickets[order[b]].event != y
  }

  lemma {:induction false} EventsOfAre(tickets: map<Id, Ticket>, events: set<Id>, order: seq<Id>)
    ensures forall e :: e in EventsOf(tickets, events, order) <==>
              e in events && exists t :: t in order && t in tickets && tickets[t].event == e
  {
    if order != [] {
      var init, last := order[..|order| - 1], order[|order| - 1];
      EventsOfAre(tickets, events, init);
      assert order == init + [last];
    }
  }

  lemma {:induction false} FirstTicketBefore(tickets: map<Id, Ticket>, events: set<Id>, order: seq<Id>, x: Id, y: Id)
    requires y in events && OccursBefore(EventsOf(tickets, events, order), x, y)
    ensures exists a :: TicketBefore(tickets, order, a, x, y)
  {
    var init, last := order[..|order| - 1], order[|order| - 1];
    var q, before := EventsOf(tickets, events, order), EventsOf(tickets, events, init);
    var k: nat :| k < |q| && q[k] == x && y !in q[..k + 1];
    if k < |before| {
      assert before[..k + 1] == q[..k + 1];
      FirstTicketBefore(tickets, events, init, x, y);
      var a :| TicketBefore(tickets, init, a, x, y);
      assert TicketBefore(tickets, order, a, x, y);
    } else {
      assert q[..k + 1] == q && q == before + [x];
      EventsOfAre(tickets, events, order);
      assert TicketBefore(tickets, order, |order| - 1, x, y);
    }
  }

  /**
   * One group per existing event the user has a ticket for, with the number of those tickets, and the events in the
   * order of their first tickets.
   */
  ghost predicate GroupedByEvent(tickets: map<Id, Ticket>, events: set<Id>, user: Id, order: seq<Id>,
                                 groups: seq<EventGroup>) {
    && (forall e :: (exists g :: g in groups && g.event == e) <==>
          e in events && exists t :: t in tickets && tickets[t].user == user && tickets[t].event == e)
    && (forall g :: g in groups ==>
          g.ticketCount == |set t | t in tickets && tickets[t].user == user && tickets[t].event == g.event|)
    && forall i, j :: 0 <= i < j < |groups| ==>
         groups[i].event != groups[j].event &&
         exists a :: TicketBefore(tickets, order, a, groups[i].event, groups[j].event)
  }

  lemma GroupsAre(tickets: map<Id, Ticket>, events: set<Id>, user: Id, order: seq<Id>, keys: seq<Id>,
                  grouped: map<Id, nat>)
    requires Returns(order, TicketsOf(tickets, user)) && Tallied(tickets, events, order, keys, grouped)
    ensures GroupedByEvent(tickets, events, user, order, GroupsOf(keys, grouped))
  {
    var groups, q := GroupsOf(keys, grouped), EventsOf(tickets, events, order);
    FirstSeenIs(q);
    EventsOfAre(tickets, events, order);
    assert forall t :: t in order <==> t in Elements(order);
    forall e ensures (exists g :: g in groups && g.event == e) <==> e in keys {
      if e in keys {
        var i :| 0 <= i < |keys| && keys[i] == e;
        assert groups[i].event == e;
      }
    }
    ForUserEvent(tickets, user, order);
    TalliedGroups(tickets, events, order, keys, grouped);
    forall g | g in groups
      ensures g.ticketCount == |set t | t in tickets && tickets[t].user == user && tickets[t].event == g.event|
    {
      assert ForEvent(tickets, order, g.event) ==
             set t | t in tickets && tickets[t].user == user && tickets[t].event == g.event;
    }
    forall i, j | 0 <= i < j < |groups|
      ensures groups[i].event != groups[j].event
      ensures exists a :: TicketBefore(tickets, order, a, groups[i].event, groups[j].event)
    {
      assert keys[j] in keys;
      FirstTicketBefore(tickets, events, order, keys[i], keys[j]);
    }
  }

  /** The counts after a prefix of the tickets. */
  ghost predicate Counted(tickets: map<Id, Ticket>, events: set<Id>, prefix: seq<Id>, grouped: map<Id, nat>) {
    && (forall e :: e in grouped ==> e in events && grouped[e] == |ForEvent(tickets, prefix, e)|)
    && (forall e :: e in events && e !in grouped ==> |ForEvent(tickets, prefix, e)| == 0)
  }

  ghost predicate Tallied(tickets: map<Id, Ticket>, events: set<Id>, prefix: seq<Id>, keys: seq<Id>,
                          grouped: map<Id, nat>) {
    && keys == FirstSeen(EventsOf(tickets, events, prefix)) && (forall e :: e in grouped <==> e in keys)
    && Counted(tickets, events, prefix, grouped)
  }

  lemma EventsOneMore(tickets: map<Id, Ticket>, events: set<Id>, order: seq<Id>, k: nat)
    requires k < |order| && order[k] in tickets
    ensures EventsOf(tickets, events, order[..k + 1]) == EventsOf(tickets, events, order[..k]) +
              (if tickets[order[k]].event in events then [tickets[order[k]].event] else [])
  {
    assert order[..k + 1][..k] == order[..k];
  }

  lemma FirstSeenOneMore(q: seq<Id>, x: Id)
    ensures FirstSeen(q + [x]) == if x in FirstSeen(q) then FirstSeen(q) else FirstSeen(q) + [x]
  {
    assert (q + [x])[..|q|] == q;
  }

  lemma CountOne(tickets: map<Id, Ticket>, events: set<Id>, order: seq<Id>, k: nat, grouped: map<Id, nat>)
    requires k < |order| && NoDuplicates(order) && order[k] in tickets && tickets[order[k]].event in events
    requires Counted(tickets, events, order[..k], grouped)
    ensures var e := tickets[order[k]].event;
            Counted(tickets, events, order[..k + 1], grouped[e := (if e in grouped then grouped[e] else 0) + 1])
  {
    ForEventOneMore(tickets, order, k);
  }

  lemma TallyOne(tickets: map<Id, Ticket>, events: set<Id>, order: seq<Id>, k: nat, keys: seq<Id>,
                 grouped: map<Id, nat>)
    requires k < |order| && NoDuplicates(order) && order[k] in tickets
    requires Tallied(tickets, events, order[..k], keys, grouped)
    ensures var e := tickets[order[k]].event;
            && (e !in events ==> Tallied(tickets, events, order[..k + 1], keys, grouped))
            && (e in grouped ==> Tallied(tickets, events, order[..k + 1], keys, grouped[e := grouped[e] + 1]))
            && (e in events && e !in grouped ==>
                  Tallied(tickets, events, order[..k + 1], keys + [e], grouped[e := 1]))
  {
    EventsOneMore(tickets, events, order, k);
    var e, before := tickets[order[k]].event, EventsOf(tickets, events, order[..k]);
    if e in events {
      FirstSeenOneMore(before, e);
      CountOne(tickets, events, order, k, grouped);
    } else {
      ForEventOneMore(tickets, order, k);
      assert before + [] == before;
    }
  }

  lemma TalliedGroups(tickets: map<Id, Ticket>, events: set<Id>, order: seq<Id>, keys: seq<Id>, grouped: map<Id, nat>)
    requires Tallied(tickets, events, order, keys, grouped)
    ensures forall g :: g in GroupsOf(keys, grouped) ==> g.ticketCount == |ForEvent(tickets, order, g.event)|
  {
    forall g | g in GroupsOf(keys, grouped) ensures g.ticketCount == |ForEvent(tickets, order, g.event)| {
      var i :| 0 <= i < |keys| && GroupsOf(keys, grouped)[i] == g;
      assert keys[i] in keys;
    }
  }

  function ForEvent(tickets: map<Id, Ticket>, order: seq<Id>, e: Id): set<Id> {
    set t | t in order && t in tickets && tickets[t].event == e
  }

  function OneIf(b: bool): nat {
    if b then 1 else 0
  }

  lemma ForEventOneMore(tickets: map<Id, Ticket>, order: seq<Id>, k: nat)
    requires k < |order| && NoDuplicates(order) && order[k] in tickets
    ensures forall e ::
            |ForEvent(tickets, order[..k + 1], e)| ==
            |ForEvent(tickets, order[..k], e)| + OneIf(tickets[order[k]].event == e)
  {
    assert order[..k + 1] == order[..k] + [order[k]];
    forall e ensures ForEvent(tickets, order[..k + 1], e) ==
      ForEvent(tickets, order[..k], e) + (if tickets[order[k]].event == e then {order[k]} else {}) {}
    assert forall e :: order[k] !in ForEvent(tickets, order[..k], e);
  }

  lemma ForUserEvent(tickets: map<Id, Ticket>, user: Id, order: seq<Id>)
    requires Returns(order, TicketsOf(tickets, user))
    ensures forall e :: ForEvent(tickets, order, e) == set t | t in TicketsOf(tickets, user) && tickets[t].event == e
  {
    assert forall t :: t in order <==> t in Elements(order);
  }

  // ---------------------------------------------------------------- what the sweep writes

  /** The reservation is pending and its deadline has passed. */
  ghost predicate PastDeadline(rows: map<Id, Reservation>, r: Id, now: int) {
    r in rows && rows[r].status == Pending && rows[r].expiresAt < now
  }

  /** Those reservations are EXPIRED, their seats AVAILABLE if RESERVED, and everything else is kept. */
  ghost predicate Swept(was: Db, after: Db, now: int) {
    && after == was.(reservations := after.reservations, seats := after.seats)
    && after.reservations.Keys == was.reservations.Keys && after.seats.Keys == was.seats.Keys
    && (forall r :: r in was.reservations ==>
          after.reservations[r] == if PastDeadline(was.reservations, r, now)
                                   then was.reservations[r].(status := Expired) else was.reservations[r])
    && forall s :: s in was.seats ==>
         after.seats[s] ==
         if was.seats[s].status == Reserved &&
             exists r :: PastDeadline(was.reservations, r, now) && was.reservations[r].seat == s
         then was.seats[s].(status := Available) else was.seats[s]
  }

  /** What the sweep reads decides what it writes and drops. */
  lemma SweepAsRead(db: Db, now: int, order: seq<Id>)
    requires Returns(order, Overdue(db, now))
    ensures ApplySnapshot(db, Snapshot(db, now)) == Booking.ExpireOverdue(db, now)
    ensures Swept(db, Booking.ExpireOverdue(db, now), now)
    ensures forall r :: r in order ==> r in Snapshot(db, now)
    ensures Named(StaleSections(Snapshot(db, now), order)) == SweepDrops(db, now)
    ensures AlikeOutside(db.seats, Booking.ExpireOverdue(db, now).seats, SweepDrops(db, now))
    ensures Snapshot(db, now) == map[] ==> Booking.ExpireOverdue(db, now) == db && SweepDrops(db, now) == {}
  {
    FreshSnapshotIsSweep(db, now);
    SweepWrites(db, now);
    StaleSectionsAre(db, now, order);
    GuardedUpdate(db.seats, SeatsOf(db, Overdue(db, now)), Reserved, Available);
    assert Snapshot(db, now) == map[] ==> Snapshot(db, now).Keys == {};
  }

  lemma SweepWrites(db: Db, now: int)
    ensures Swept(db, Booking.ExpireOverdue(db, now), now)
  {
    assert forall r :: r in Overdue(db, now) <==> PastDeadline(db.reservations, r, now);
  }

  // ---------------------------------------------------------------- what the handlers write

  /** The rows whose id text is in the comma-separated list and whose status is `from` have `to`; the others stay. */
  ghost predicate RowsMoved(before: map<Id, Reservation>, after: map<Id, Reservation>, list: string,
                            from: ReservationStatus, to: ReservationStatus) {
    && after.Keys == before.Keys
    && forall r :: r in before ==>
         after[r] == if IdText(r) in Split(list) && before[r].status == from then before[r].(status := to)
                     else before[r]
  }

  ghost predicate SeatsMoved(before: map<Id, Seat>, after: map<Id, Seat>, list: string, from: SeatStatus,
                             to: SeatStatus) {
    && after.Keys == before.Keys
    && forall s :: s in before ==>
         after[s] == if IdText(s) in Split(list) && before[s].status == from then before[s].(status := to)
                     else before[s]
  }

  /** The successful payments of the user, if one is named, are returned. */
  ghost predicate PaymentsReturned(before: seq<Payment>, after: seq<Payment>, user: Option<Id>) {
    && |after| == |before|
    && forall i :: 0 <= i < |before| ==>
         after[i] == if user.Some? && before[i].user == user && before[i].status == Successful
                     then before[i].(status := Returned) else before[i]
  }

  /** The tickets of the listed reservations are refunded, used or not. */
  ghost predicate TicketsRefunded(was: Db, after: map<Id, Ticket>, list: string) {
    && after.Keys == was.tickets.Keys
    && forall t :: t in after ==>
         var r := was.tickets[t].reservation;
         after[t] == if r in was.reservations && IdText(r) in Split(list) then was.tickets[t].(isRefunded := true)
                     else was.tickets[t]
  }

  /** The payment row cannot be inserted: one with the event's key exists, or the named user does not. */
  ghost predicate Refused(was: Db, ev: WebhookEvent) {
    || (exists p :: p in was.payments && p.idempotencyKey == ev.id)
    || (ev.metadata.userId.Some? && ev.metadata.userId.value !in was.users)
  }

  lemma UpdatesMove(db: Db, m: Metadata, from: ReservationStatus, to: ReservationStatus, from': SeatStatus,
                    to': SeatStatus)
    ensures RowsMoved(db.reservations, UpdateReservations(db.reservations, ReservationsIn(db, m), from, to),
                m.reservationIds, from, to)
    ensures SeatsMoved(db.seats, UpdateSeats(db.seats, SeatsIn(db, m), from', to'), m.seatIds, from', to')
  {
  }

  lemma RefundsWrite(db: Db, m: Metadata)
    ensures PaymentsReturned(db.payments,
                if m.userId.Some? then RefundPayments(db.payments, m.userId.value) else db.payments, m.userId)
    ensures TicketsRefunded(db, RefundTickets(db.tickets, ReservationsIn(db, m)), m.reservationIds)
  {
  }

  // ---------------------------------------------------------------- what generation writes

  /** Some ticket has this id, is for this reservation, or is for this seat. */
  ghost predicate Clash(tickets: map<Id, Ticket>, r: Id, seat: Id, id: Id) {
    id in tickets || exists t :: t in tickets && (tickets[t].reservation == r || tickets[t].seat == seat)
  }

  /** The first n rows, none of which clashed, have got a fresh unused ticket each, and nothing else was written. */
  ghost predicate Written(held: map<Id, Reservation>, before: map<Id, Ticket>, after: map<Id, Ticket>, user: Id,
                          event: Id, rows: seq<Id>, ids: seq<Id>, n: int) {
    && 0 <= n <= |rows| == |ids|
    && (forall k :: 0 <= k < n ==>
          rows[k] in held && !Clash(before, rows[k], held[rows[k]].seat, ids[k]) && ids[k] in after &&
          after[ids[k]] == Ticket(rows[k], user, event, held[rows[k]].seat, false, false))
    && (forall t :: t in before ==> t in after && after[t] == before[t])
    && (forall t :: t in after ==> t in before || t in ids[..n])
    && (forall j, k :: 0 <= j < k < n ==>
          rows[j] != rows[k] && ids[j] != ids[k] && held[rows[j]].seat != held[rows[k]].seat)
  }

  /** Generation wrote the tickets of n rows and then ended, at the last row or at one that clashed. */
  ghost predicate Generated(held: map<Id, Reservation>, before: map<Id, Ticket>, after: map<Id, Ticket>, user: Id,
                            event: Id, rows: seq<Id>, ids: seq<Id>, n: int, result: Result<seq<Id>>) {
    && Written(held, before, after, user, event, rows, ids, n)
    && if n == |rows| then result == Ok(ids)
       else result == Err(Rejected) && rows[n] in held && Clash(after, rows[n], held[rows[n]].seat, ids[n])
  }

  /** The issue function at row i: ends at a clash, else writes one ticket and goes on. */
  lemma IssueNext(db: Db, user: Id, event: Id, rows: seq<Id>, ids: seq<Id>, i: nat)
    requires |rows| == |ids| && i < |rows| && forall r :: r in rows ==> r in db.reservations
    ensures var seat := db.reservations[rows[i]].seat;
            IssueTickets(db, user, event, rows[i..], ids[i..]) ==
            if Ticketed(db, rows[i]) || SeatTicketed(db, seat) || ids[i] in db.tickets then db
            else IssueTickets(db.(tickets := db.tickets[ids[i] := Ticket(rows[i], user, event, seat, false, false)]),
                     user, event, rows[i + 1..], ids[i + 1..])
  {
    assert rows[i..][0] == rows[i] && ids[i..][0] == ids[i];
    assert rows[i..][1..] == rows[i + 1..] && ids[i..][1..] == ids[i + 1..];
  }

  lemma WrittenOneMore(held: map<Id, Reservation>, before: map<Id, Ticket>, tickets: map<Id, Ticket>, user: Id,
                       event: Id, rows: seq<Id>, ids: seq<Id>, n: nat)
    requires Written(held, before, tickets, user, event, rows, ids, n)
    requires n < |rows| && rows[n] in held && !Clash(tickets, rows[n], held[rows[n]].seat, ids[n])
    ensures Written(held, before, tickets[ids[n] := Ticket(rows[n], user, event, held[rows[n]].seat, false, false)],
                user, event, rows, ids, n + 1)
  {
    var after := tickets[ids[n] := Ticket(rows[n], user, event, held[rows[n]].seat, false, false)];
    assert ids[..n + 1] == ids[..n] + [ids[n]];
    forall k | 0 <= k < n + 1
      ensures !Clash(before, rows[k], held[rows[k]].seat, ids[k]) && ids[k] in after
      ensures after[ids[k]] == Ticket(rows[k], user, event, held[rows[k]].seat, false, false)
    {
    }
  }

  // ---------------------------------------------------------------- what create answers and leaves

  /** The answers of create, told from the tables: which error comes first, and that there is no other. */
  lemma ReserveAnswers(was: Db, user: Id, seatIds: seq<Id>, holds: map<Id, Id>, now: int)
    ensures var result := CreateReservations(was, user, Elements(seatIds), holds, now).1;
            && (result.Ok? || result.error in {NotFound, Conflict, Rejected})
            && (result == Err(NotFound) <==> exists s :: s in seatIds && s !in was.seats)
            && (result == Err(Conflict) <==>
                && (forall s :: s in seatIds ==> s in was.seats)
                && !(forall s :: s in seatIds ==>
                       was.seats[s].status == Available &&
                         var x := was.seats[s].section;
                         x in was.sections && was.sections[x].event in was.events &&
                         was.events[was.sections[x].event].status == Published))
            && (result == Err(Rejected) <==>
                && (forall s :: s in seatIds ==>
                      s in was.seats && was.seats[s].status == Available &&
                      var x := was.seats[s].section;
                      x in was.sections && was.sections[x].event in was.events &&
                      was.events[was.sections[x].event].status == Published)
                && ((exists r :: r in was.reservations && was.reservations[r].seat in seatIds) ||
                    (seatIds != [] && user !in was.users)))
  {
    assert forall s :: s in seatIds <==> s in Elements(seatIds);
    assert seatIds != [] ==> seatIds[0] in Elements(seatIds);
  }

  lemma ReserveEffect(was: Db, user: Id, seatIds: seq<Id>, rows: seq<Id>, ids: seq<Id>, now: int)
    requires |ids| == |rows| && NoDuplicates(ids)
    ensures var (after, result) := CreateReservations(was, user, Elements(seatIds), HoldsOf(ids, rows), now);
            && (result.Err? ==> after == was)
            && (result.Ok? && Elements(rows) == Elements(seatIds) ==>
                  && after == was.(seats := after.seats, reservations := after.reservations)
                  && after.seats.Keys == was.seats.Keys
                  && (forall s :: s in after.seats ==>
                        after.seats[s] == if s in seatIds then was.seats[s].(status := Reserved) else was.seats[s])
                  && after.reservations.Keys == was.reservations.Keys + Elements(ids)
                  && (forall i :: 0 <= i < |ids| ==>
                        after.reservations[ids[i]] == Reservation(user, rows[i], Pending, now + 600))
                  && (forall r :: r in was.reservations && r !in ids ==> after.reservations[r] == was.reservations[r]))
  {
    HoldsValues(ids, rows);
    assert forall s :: s in seatIds <==> s in Elements(seatIds);
    RowsInserted(was.reservations, user, rows, ids, now);
  }

  lemma RowsInserted(before: map<Id, Reservation>, user: Id, rows: seq<Id>, ids: seq<Id>, now: int)
    requires |ids| == |rows| && NoDuplicates(ids)
    ensures var after := before + NewReservations(user, HoldsOf(ids, rows), now);
            && after.Keys == before.Keys + Elements(ids)
            && (forall i :: 0 <= i < |ids| ==> after[ids[i]] == Reservation(user, rows[i], Pending, now + 600))
            && (forall r :: r in before && r !in ids ==> after[r] == before[r])
  {
    HoldsValues(ids, rows);
    assert forall r :: r in ids <==> r in Elements(ids);
    forall i | 0 <= i < |ids| ensures ids[i] in HoldsOf(ids, rows) && HoldsOf(ids, rows)[ids[i]] == rows[i] {}
  }

  // ---------------------------------------------------------------- what the handlers leave

  /** The ticket exists and is for an event of this scanner. */
  predicate OfOwnEvent(db: Db, t: Id, scanner: Id) {
    && t in db.tickets && db.tickets[t].event in db.events
    && db.events[db.tickets[t].event].organizer == scanner
  }

  /** The ticket may be admitted by this scanner. */
  predicate Admissible(db: Db, t: Id, scanner: Id) {
    OfOwnEvent(db, t, scanner) && !db.tickets[t].isUsed && !db.tickets[t].isRefunded
  }

  /** The listed seats are the seats of the listed reservations, as in the metadata of a checkout. */
  predicate SeatsFollow(db: Db, m: Metadata) {
    SeatsIn(db, m) == SeatsOf(db, ReservationsIn(db, m))
  }

  function OrderSections(db: Db, m: Metadata): set<Id> {
    if HasOrderIds(m) then SectionsOf(db.seats, SeatsIn(db, m)) else {}
  }

  function PaymentDrops(db: Db, ev: WebhookEvent): set<Id> {
    if PaymentInsertable(db, ev) then OrderSections(db, ev.metadata) else {}
  }

  lemma SettledAgrees(db: Db, after: Db, m: Metadata, from: ReservationStatus, to: ReservationStatus)
    requires from == Pending || from == Confirmed
    requires after.reservations == UpdateReservations(db.reservations, ReservationsIn(db, m), from, to)
    requires after.seats == UpdateSeats(db.seats, SeatsIn(db, m), SeatOf(from), SeatOf(to))
    ensures SeatsFollow(db, m) && Agree(db) ==> Agree(after)
  {
    if SeatsFollow(db, m) && Agree(db) {
      OwnSeatsMatch(db, ReservationsIn(db, m), from);
      SettleKeepsAgreement(db, ReservationsIn(db, m), SeatsIn(db, m), from, to);
    }
  }

  lemma UpdateTwice(rows: map<Id, Reservation>, seats: map<Id, Seat>, rs: set<Id>, ss: set<Id>,
                    from: ReservationStatus, to: ReservationStatus)
    requires SeatOf(from) != SeatOf(to)
    ensures UpdateReservations(UpdateReservations(rows, rs, from, to), rs, from, to) ==
            UpdateReservations(rows, rs, from, to)
    ensures var once := UpdateSeats(seats, ss, SeatOf(from), SeatOf(to));
            UpdateSeats(once, ss, SeatOf(from), SeatOf(to)) == once
  {
  }

  lemma SameSelection(db: Db, after: Db, m: Metadata)
    ensures after.reservations.Keys == db.reservations.Keys && after.seats.Keys == db.seats.Keys ==>
            ReservationsIn(after, m) == ReservationsIn(db, m) && SeatsIn(after, m) == SeatsIn(db, m)
  {
  }

  lemma ReleaseLeaves(db: Db, ev: WebhookEvent)
    ensures ReleaseHold(ReleaseHold(db, ev), ev) == ReleaseHold(db, ev)
    ensures SeatsFollow(db, ev.metadata) && Agree(db) ==> Agree(ReleaseHold(db, ev))
  {
    var after := ReleaseHold(db, ev);
    if HasOrderIds(ev.metadata) { SettledAgrees(db, after, ev.metadata, Pending, Expired); }
    SameSelection(db, after, ev.metadata);
    UpdateTwice(db.reservations, db.seats, ReservationsIn(db, ev.metadata), SeatsIn(db, ev.metadata), Pending, Expired);
  }

  lemma RefundLeaves(db: Db, ev: WebhookEvent)
    ensures OnRefundPaid(OnRefundPaid(db, ev), ev) == OnRefundPaid(db, ev)
    ensures SeatsFollow(db, ev.metadata) && Agree(db) ==> Agree(OnRefundPaid(db, ev))
  {
    var after := OnRefundPaid(db, ev);
    if HasOrderIds(ev.metadata) { SettledAgrees(db, after, ev.metadata, Confirmed, Refunded); }
    SameSelection(db, after, ev.metadata);
    UpdateTwice(db.reservations, db.seats, ReservationsIn(db, ev.metadata), SeatsIn(db, ev.metadata), Confirmed,
        Refunded);
  }

  lemma PaymentLeaves(db: Db, ev: WebhookEvent, rows: seq<Id>, ids: seq<Id>)
    requires RowsFor(db, ev, rows, ids) && HasOrderIds(ev.metadata) && PaymentInsertable(db, ev)
    ensures !PaymentInsertable(OnPaymentSucceeded(db, ev, rows, ids), ev)
    ensures SeatsFollow(db, ev.metadata) && Agree(db) ==> Agree(OnPaymentSucceeded(db, ev, rows, ids))
  {
    PaidFields(db, ev, rows, ids);
    var after := OnPaymentSucceeded(db, ev, rows, ids);
    SettledAgrees(db, after, ev.metadata, Pending, Confirmed);
    assert after.payments[|db.payments|].idempotencyKey == ev.id;
  }

  // ---------------------------------------------------------------- the counts they drop

  lemma NothingDropped(entries: map<string, Entry>)
    ensures KeysFor({}) == {} && entries - KeysFor({}) == entries
  {
  }

  lemma KeepsExactIfSo(entries: map<string, Entry>, now: int, before: map<Id, Seat>, after: map<Id, Seat>,
                       dropped: set<Id>)
    requires AlikeOutside(before, after, dropped)
    ensures CacheExact(entries, now, before) ==> CacheExact(entries - KeysFor(dropped), now, after)
  {
    if CacheExact(entries, now, before) { DroppedKeepsExact(entries, now, before, after, dropped); }
  }

  /** The seats stay, in their sections. */
  predicate SectionsKept(before: map<Id, Seat>, after: map<Id, Seat>) {
    after.Keys == before.Keys && forall s :: s in before ==> after[s].section == before[s].section
  }

  lemma SameSections(before: map<Id, Seat>, after: map<Id, Seat>, ids: set<Id>)
    ensures SectionsKept(before, after) ==> SectionsOf(after, ids) == SectionsOf(before, ids)
  {
  }

  lemma SectionsAfterUpdate(seats: map<Id, Seat>, ids: set<Id>, from: SeatStatus, to: SeatStatus)
    ensures SectionsOf(UpdateSeats(seats, ids, from, to), ids) == SectionsOf(seats, ids)
  {
    SameSections(seats, UpdateSeats(seats, ids, from, to), ids);
  }

  /** The sections of the rows as the sweep read them. */
  function StaleSections(found: map<Id, Stale>, order: seq<Id>): (sections: seq<Option<Id>>)
    requires forall r :: r in order ==> r in found
    ensures |sections| == |order|
    ensures forall i :: 0 <= i < |order| ==>
              sections[i] == if found[order[i]].seat.Some? then Some(found[order[i]].seat.value.section) else None
  {
    seq(|order|, i requires 0 <= i < |order| =>
      assert order[i] in order;
      if found[order[i]].seat.Some? then Some(found[order[i]].seat.value.section) else None)
  }

  lemma StaleSectionsAre(db: Db, now: int, order: seq<Id>)
    requires Returns(order, Overdue(db, now))
    ensures forall r :: r in order ==> r in Snapshot(db, now)
    ensures Named(StaleSections(Snapshot(db, now), order)) == SweepDrops(db, now)
  {
    var found := Snapshot(db, now);
    assert forall r :: r in order <==> r in Elements(order);
    var sections := StaleSections(found, order);
    forall x | x in SweepDrops(db, now) ensures Some(x) in sections {
      var s :| s in SeatsOf(db, Overdue(db, now)) && s in db.seats && db.seats[s].section == x;
      var r :| r in Overdue(db, now) && r in db.reservations && db.reservations[r].seat == s;
      var i :| 0 <= i < |order| && order[i] == r;
      assert sections[i] == Some(x);
    }
    forall x | Some(x) in sections ensures x in SweepDrops(db, now) {
      var i :| 0 <= i < |sections| && sections[i] == Some(x);
      assert order[i] in found && db.reservations[order[i]].seat in SeatsOf(db, Overdue(db, now));
    }
  }

  // ---------------------------------------------------------------- more of the loops' specifications

  lemma NewRowsPrefix(ids: seq<Id>, rows: seq<Id>, k: nat, user: Id, now: int)
    requires |ids| == |rows| && NoDuplicates(ids) && k < |ids|
    ensures NewReservations(user, HoldsOf(ids[..k + 1], rows[..k + 1]), now) ==
      NewReservations(user, HoldsOf(ids[..k], rows[..k]),
          now)[ids[k] := Reservation(user, rows[k], Pending, now + RESERVATION_TTL_SECONDS)]
  {
    HoldsOfPrefix(ids, rows, k);
  }

  lemma HoldsValues(ids: seq<Id>, rows: seq<Id>)
    requires |ids| == |rows| && NoDuplicates(ids)
    ensures HoldsOf(ids, rows).Values == Elements(rows) && HoldsOf(ids, rows).Keys == Elements(ids)
  {
    var holds := HoldsOf(ids, rows);
    forall i | 0 <= i < |ids| ensures ids[i] in holds && holds[ids[i]] == rows[i] {}
    forall s | s in rows ensures s in holds.Values {
      var i :| 0 <= i < |rows| && rows[i] == s;
      assert holds[ids[i]] == s;
    }
  }

  lemma InsertHoldsParts(db: Db, user: Id, ids: seq<Id>, rows: seq<Id>, now: int)
    requires |ids| == |rows| && NoDuplicates(ids)
    ensures InsertHolds(db, user, HoldsOf(ids, rows), now) ==
      db.(seats := ReservedSeats(db.seats, Elements(rows)),
          reservations := db.reservations + NewReservations(user, HoldsOf(ids, rows), now))
  {
    HoldsValues(ids, rows);
  }

  function Restricted(found: map<Id, Stale>, order: seq<Id>): map<Id, Stale> {
    map r | r in found && r in order :: found[r]
  }

  /** One row of the sweep's transaction. */
  function StaleSaved(db: Db, r: Id, stale: Stale): Db {
    db.(reservations := db.reservations[r := stale.row.(status := Expired)],
        seats := if stale.seat.Some? && stale.seat.value.status == Reserved && stale.row.seat in db.seats
                 then db.seats[stale.row.seat := db.seats[stale.row.seat].(status := Available)] else db.seats)
  }

  lemma StaleSeatsOneMore(a: map<Id, Stale>, r: Id, stale: Stale)
    requires r !in a
    ensures StaleSeats(a[r := stale]) ==
              StaleSeats(a) + if stale.seat.Some? && stale.seat.value.status == Reserved then {stale.row.seat} else {}
  {
    var b := a[r := stale];
    forall s | s in StaleSeats(a) ensures s in StaleSeats(b) {
      var q :| q in a && a[q].seat.Some? && a[q].seat.value.status == Reserved && a[q].row.seat == s;
      assert b[q] == a[q];
    }
    assert stale.seat.Some? && stale.seat.value.status == Reserved ==> b[r] == stale && stale.row.seat in StaleSeats(b);
  }

  lemma ReleasedOneMore(seats: map<Id, Seat>, ss: set<Id>, s: Id)
    ensures ReleasedSeats(seats, ss + {s}) ==
            if s in seats then ReleasedSeats(seats, ss)[s := ReleasedSeats(seats, ss)[s].(status := Available)]
                else ReleasedSeats(seats, ss)
    ensures ReleasedSeats(seats, ss + {}) == ReleasedSeats(seats, ss)
  {
    assert ss + {} == ss;
  }

  lemma RestrictedOneMore(found: map<Id, Stale>, order: seq<Id>, k: nat)
    requires k < |order| && NoDuplicates(order) && order[k] in found
    ensures order[k] !in Restricted(found, order[..k])
    ensures Restricted(found, order[..k + 1]) == Restricted(found, order[..k])[order[k] := found[order[k]]]
  {
    assert order[..k + 1] == order[..k] + [order[k]] && order[k] !in order[..k];
  }

  lemma RestrictedEnds(before: Db, found: map<Id, Stale>, order: seq<Id>)
    requires Elements(order) == found.Keys
    ensures ApplySnapshot(before, Restricted(found, order[..0])) == before
    ensures Restricted(found, order[..|order|]) == found
  {
    assert order[..|order|] == order;
    assert forall r :: r in order <==> r in Elements(order);
    assert Restricted(found, order[..0]) == map[];
  }

  lemma AppliedOneMore(before: Db, found: map<Id, Stale>, order: seq<Id>, k: nat)
    requires k < |order| && NoDuplicates(order) && order[k] in found && order[k] in before.reservations
    ensures ApplySnapshot(before, Restricted(found, order[..k + 1])) ==
            StaleSaved(ApplySnapshot(before, Restricted(found, order[..k])), order[k], found[order[k]])
  {
    var r, a := order[k], Restricted(found, order[..k]);
    RestrictedOneMore(found, order, k);
    StaleSeatsOneMore(a, r, found[r]);
    ReleasedOneMore(before.seats, StaleSeats(a), found[r].row.seat);
  }

  /** Applied at once, a snapshot is the atomic sweep. */
  lemma FreshSnapshotIsSweep(db: Db, now: int)
    ensures ApplySnapshot(db, Snapshot(db, now)) == Booking.ExpireOverdue(db, now)
  {
  }
}
