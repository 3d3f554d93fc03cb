/** The seat table and the reservation table agree in every reachable state. */
module Agreement {
  import opened Text
  import opened Tables
  import opened Booking
  import opened Protocol

  /** The status a seat has while its reservation has the given one. */
  function SeatOf(status: ReservationStatus): SeatStatus {
    match status
    case Pending => Reserved
    case Confirmed => Booked
    case Expired => Available
    case Refunded => Available
  }

  predicate Holds(rows: map<Id, Reservation>, r: Id, s: Id) {
    r in rows && rows[r].seat == s
  }

  /** No two reservations point to one seat: what the unique index on seat_id keeps. */
  ghost predicate OneHolder(rows: map<Id, Reservation>) {
    forall r, q, s :: Holds(rows, r, s) && Holds(rows, q, s) ==> r == q
  }

  /** Every reservation points to an existing seat that shows the reservation's status. */
  ghost predicate StatusesMatch(seats: map<Id, Seat>, rows: map<Id, Reservation>) {
    forall r, s :: Holds(rows, r, s) ==> s in seats && seats[s].status == SeatOf(rows[r].status)
  }

  /** A seat without a reservation is AVAILABLE. */
  ghost predicate HeldUnlessAvailable(seats: map<Id, Seat>, rows: map<Id, Reservation>) {
    forall s :: s in seats && seats[s].status != Available ==> exists r :: Holds(rows, r, s)
  }

  ghost predicate Agree(db: Db) {
    OneHolder(db.reservations) && StatusesMatch(db.seats, db.reservations) &&
    HeldUnlessAvailable(db.seats, db.reservations)
  }

  /** The reading of agreement seat by seat. */
  lemma AgreementBySeat(db: Db, s: Id)
    requires Agree(db) && s in db.seats
    ensures db.seats[s].status == Reserved <==>
            exists r :: Holds(db.reservations, r, s) && db.reservations[r].status == Pending
    ensures db.seats[s].status == Booked <==>
            exists r :: Holds(db.reservations, r, s) && db.reservations[r].status == Confirmed
    ensures db.seats[s].status == Available <==>
            forall r :: Holds(db.reservations, r, s) ==> db.reservations[r].status in {Expired, Refunded}
  {
  }

  // ---------------------------------------------------------------- the two guarded updates together

  /** What every settlement does: move reservations out of one status and seats out of the matching one. */
  function Settle(db: Db, rs: set<Id>, ss: set<Id>, from: ReservationStatus, to: ReservationStatus): Db {
    db.(reservations := UpdateReservations(db.reservations, rs, from, to),
        seats := UpdateSeats(db.seats, ss, SeatOf(from), SeatOf(to)))
  }

  /** Among the reservations that can be settled, exactly those listed have their seat listed. */
  ghost predicate Matched(db: Db, rs: set<Id>, ss: set<Id>, from: ReservationStatus) {
    forall r ::
        r in db.reservations && db.reservations[r].status == from ==> (r in rs <==> db.reservations[r].seat in ss)
  }

  lemma SettleKeepsHolders(db: Db, rs: set<Id>, ss: set<Id>, from: ReservationStatus, to: ReservationStatus)
    ensures forall r, s :: Holds(Settle(db, rs, ss, from, to).reservations, r, s) <==> Holds(db.reservations, r, s)
  {
  }

  lemma SettleKeepsAgreement(db: Db, rs: set<Id>, ss: set<Id>, from: ReservationStatus, to: ReservationStatus)
    requires Agree(db) && Matched(db, rs, ss, from)
    requires from == Pending || from == Confirmed
    ensures Agree(Settle(db, rs, ss, from, to))
  {
    SettleKeepsHolders(db, rs, ss, from, to);
    var after := Settle(db, rs, ss, from, to);
    assert OneHolder(after.reservations);
    forall r, s | Holds(after.reservations, r, s)
      ensures s in after.seats && after.seats[s].status == SeatOf(after.reservations[r].status)
    {
      assert Holds(db.reservations, r, s);
    }
    forall s | s in after.seats && after.seats[s].status != Available
      ensures exists r :: Holds(after.reservations, r, s)
    {
      assert db.seats[s].status != Available;
      var r :| Holds(db.reservations, r, s);
    }
  }

  lemma SettleBreaksAgreement(db: Db, rs: set<Id>, ss: set<Id>, from: ReservationStatus, to: ReservationStatus, r: Id)
    requires Agree(db) && SeatOf(to) != SeatOf(from)
    requires r in db.reservations && db.reservations[r].status == from && !(r in rs <==> db.reservations[r].seat in ss)
    ensures !Agree(Settle(db, rs, ss, from, to))
  {
    var after := Settle(db, rs, ss, from, to);
    assert Holds(db.reservations, r, db.reservations[r].seat);
    assert Holds(after.reservations, r, after.reservations[r].seat);
    assert after.seats[after.reservations[r].seat].status != SeatOf(after.reservations[r].status);
  }

  /**
   * The seat update does not look at who holds the seat. Run with arbitrary lists it keeps the tables in agreement
   * exactly when the lists match on the reservations still in the guarded status.
   */
  lemma SettleAgreesIff(db: Db, rs: set<Id>, ss: set<Id>, from: ReservationStatus, to: ReservationStatus)
    requires Agree(db)
    requires from == Pending || from == Confirmed
    requires SeatOf(to) != SeatOf(from)
    ensures Agree(Settle(db, rs, ss, from, to)) <==> Matched(db, rs, ss, from)
  {
    if Matched(db, rs, ss, from) {
      SettleKeepsAgreement(db, rs, ss, from, to);
    } else {
      var r :| r in db.reservations && db.reservations[r].status == from &&
          !(r in rs <==> db.reservations[r].seat in ss);
      SettleBreaksAgreement(db, rs, ss, from, to, r);
    }
  }

  // ---------------------------------------------------------------- what the booking operations keep

  /** Columns and rows no step changes or drops. */
  ghost predicate Keeps(db: Db, after: Db) {
    && db.users <= after.users
    && db.events.Keys <= after.events.Keys
    && (forall r :: r in db.reservations ==>
          r in after.reservations &&
          after.reservations[r] == db.reservations[r].(status := after.reservations[r].status))
    && (forall r ::
          r in db.reservations ==> db.reservations[r].seat in db.seats ==> db.reservations[r].seat in after.seats)
  }

  /** An order names reservations of its user and exactly their seats. */
  ghost predicate OrderOk(db: Db, o: Order) {
    && o.reservations != [] && o.seats != []
    && NoDuplicates(o.reservations) && NoDuplicates(o.seats) && |o.reservations| == |o.seats|
    && o.user in db.users && o.event in db.events
    && (forall r :: r in o.reservations ==> r in db.reservations && db.reservations[r].user == o.user)
    && SeatsOf(db, Elements(o.reservations)) == Elements(o.seats)
  }

  ghost predicate OrdersOk(w: World) {
    && (forall i :: 0 <= i < |w.orders| ==> OrderOk(w.db, w.orders[i]))
    && (forall i, j, r :: 0 <= i < j < |w.orders| && r in w.orders[i].reservations ==> r !in w.orders[j].reservations)
  }

  /** Every payment row was keyed by an event that is marked processed. */
  ghost predicate PaymentsMarked(db: Db) {
    forall i :: 0 <= i < |db.payments| ==> db.payments[i].idempotencyKey in db.processed
  }

  ghost predicate Inv(w: World) {
    Agree(w.db) && OrdersOk(w) && PaymentsMarked(w.db)
  }

  /** Lists whose seats are exactly the seats of their reservations match in every agreeing state. */
  lemma OwnSeatsMatch(db: Db, rs: set<Id>, from: ReservationStatus)
    requires Agree(db)
    ensures Matched(db, rs, SeatsOf(db, rs), from)
  {
    forall r | r in db.reservations ensures r in rs <==> db.reservations[r].seat in SeatsOf(db, rs) {
      if q :| q in rs && q in db.reservations && db.reservations[q].seat == db.reservations[r].seat {
        assert Holds(db.reservations, q, db.reservations[r].seat) && Holds(db.reservations, r, db.reservations[r].seat);
      }
    }
  }

  lemma InsertHoldsHolders(db: Db, user: Id, seatIds: set<Id>, holds: map<Id, Id>, now: int, r: Id, s: Id)
    requires FreshHolds(db, seatIds, holds)
    ensures Holds(InsertHolds(db, user, holds, now).reservations, r, s) <==>
            if r in holds then holds[r] == s else Holds(db.reservations, r, s)
    ensures r in holds && holds[r] == s ==> s in seatIds
  {
  }

  /** Seats that nobody holds may be given to one new PENDING reservation each. */
  lemma InsertHoldsAgrees(db: Db, user: Id, seatIds: set<Id>, holds: map<Id, Id>, now: int)
    requires Agree(db) && FreshHolds(db, seatIds, holds) && seatIds <= db.seats.Keys
    requires forall r, s :: Holds(db.reservations, r, s) ==> s !in seatIds
    ensures Agree(InsertHolds(db, user, holds, now))
  {
    var after := InsertHolds(db, user, holds, now);
    var rows := after.reservations;
    forall r, q, s | Holds(rows, r, s) && Holds(rows, q, s) ensures r == q {
      InsertHoldsHolders(db, user, seatIds, holds, now, r, s);
      InsertHoldsHolders(db, user, seatIds, holds, now, q, s);
    }
    forall r, s | Holds(rows, r, s)
      ensures s in after.seats && after.seats[s].status == SeatOf(rows[r].status)
    {
      InsertHoldsHolders(db, user, seatIds, holds, now, r, s);
    }
    forall s | s in after.seats && after.seats[s].status != Available
      ensures exists r :: Holds(rows, r, s)
    {
      if s in seatIds {
        var r :| r in holds && holds[r] == s;
        InsertHoldsHolders(db, user, seatIds, holds, now, r, s);
      } else {
        assert db.seats[s].status != Available;
        var r :| Holds(db.reservations, r, s);
        InsertHoldsHolders(db, user, seatIds, holds, now, r, s);
      }
    }
  }

  lemma CancelIsSettle(db: Db, user: Id, r: Id)
    requires Agree(db)
    ensures CancelReservation(db, user, r).0 ==
            if CancelReservation(db, user, r).1.Ok? then Settle(db, {r}, SeatsOf(db, {r}), Pending, Expired) else db
  {
  }
}
