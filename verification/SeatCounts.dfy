/**
 * The cached counts of available seats: exact when commits and fills are whole, and how stale they can be when they
 * are not.
 */
module SeatCounts {
  import opened Text
  import opened Tables
  import opened Booking
  import opened Protocol
  import opened Agreement
  import opened Invariant
  import opened Deliveries
  import opened OtpStore

  const SEAT_AVAILABILITY_TTL_SECONDS: int := 60

  /** The count query of a section. */
  function AvailableIn(seats: map<Id, Seat>, section: Id): set<Id> {
    set s | s in seats && seats[s].section == section && seats[s].status == Available
  }

  function SectionsOf(seats: map<Id, Seat>, ids: set<Id>): set<Id> {
    set s | s in ids && s in seats :: seats[s].section
  }

  // ---------------------------------------------------------------- which counts a step drops

  function ReserveDrops(db: Db, user: Id, seatIds: set<Id>): set<Id> {
    if ReserveCheck(db, seatIds).None? && HoldsInsertable(db, user, seatIds) then SectionsOf(db.seats, seatIds) else {}
  }

  function WebhookDrops(db: Db, ev: WebhookEvent): set<Id> {
    if ev.id in db.processed || !HasOrderIds(ev.metadata) then {}
    else match ev.kind
      case CollectionSucceeded => if PaymentInsertable(db, ev) then SectionsOf(db.seats, SeatsIn(db, ev.metadata))
          else {}
      case CollectionFailed => SectionsOf(db.seats, SeatsIn(db, ev.metadata))
      case CheckoutExpired => SectionsOf(db.seats, SeatsIn(db, ev.metadata))
      case RefundPaid => SectionsOf(db.seats, SeatsIn(db, ev.metadata))
      case _ => {}
  }

  function CheckoutDrops(db: Db, user: Id, section: Id, chosen: seq<Id>): set<Id> {
    if CheckoutCheck(db, section, chosen).None? then ReserveDrops(db, user, Elements(chosen)) else {}
  }

  function CancelDrops(db: Db, user: Id, r: Id): set<Id> {
    if CancelReservation(db, user, r).1.Ok? && SeatReserved(db, db.reservations[r].seat) then
        SectionsOf(db.seats, {db.reservations[r].seat})
    else {}
  }

  predicate SeatReserved(db: Db, s: Id) {
    s in db.seats && db.seats[s].status == Reserved
  }

  function SweepDrops(db: Db, now: int): set<Id> {
    SectionsOf(db.seats, SeatsOf(db, Overdue(db, now)))
  }

  /** The sections a booking step invalidates after its commit. */
  function Drops(w: World, st: Protocol.Step): set<Id> {
    match st
    case BulkCreate(section, _) => {section}
    case Remove(seat) => if RemoveSeat(w.db, seat).1.Ok? then SectionsOf(w.db.seats, {seat}) else {}
    case Reserve(user, seatIds, _) => ReserveDrops(w.db, user, seatIds)
    case Checkout(user, section, chosen, _, _) => CheckoutDrops(w.db, user, section, chosen)
    case Cancel(user, r) => CancelDrops(w.db, user, r)
    case Sweep => SweepDrops(w.db, w.now)
    case Deliver(ev, _, _) => WebhookDrops(w.db, ev)
    case _ => {}
  }

  /** Two seat tables count alike in every section outside the dropped ones. */
  ghost predicate AlikeOutside(before: map<Id, Seat>, after: map<Id, Seat>, dropped: set<Id>) {
    forall x :: x !in dropped ==> AvailableIn(before, x) == AvailableIn(after, x)
  }

  lemma GuardedUpdate(seats: map<Id, Seat>, ids: set<Id>, from: SeatStatus, to: SeatStatus)
    ensures AlikeOutside(seats, UpdateSeats(seats, ids, from, to), SectionsOf(seats, ids))
  {
  }

  lemma ReserveAlike(db: Db, user: Id, seatIds: set<Id>, holds: map<Id, Id>, now: int)
    ensures holds.Values == seatIds ==>
            AlikeOutside(db.seats, CreateReservations(db, user, seatIds, holds, now).0.seats,
            ReserveDrops(db, user, seatIds))
  {
  }

  lemma {:induction false} TicketsLeaveSeats(db: Db, user: Id, event: Id, rows: seq<Id>, ids: seq<Id>)
    requires |rows| == |ids| && forall r :: r in rows ==> r in db.reservations
    ensures IssueTickets(db, user, event, rows, ids).seats == db.seats
    decreases |rows|
  {
    if rows != [] {
      var seat := db.reservations[rows[0]].seat;
      if !(Ticketed(db, rows[0]) || SeatTicketed(db, seat) || ids[0] in db.tickets) {
        TicketsLeaveSeats(db.(tickets := db.tickets[ids[0] := Ticket(rows[0], user, event, seat, false, false)]), user,
            event, rows[1..], ids[1..]);
      }
    }
  }

  lemma PaidSeats(db: Db, ev: WebhookEvent, rows: seq<Id>, ids: seq<Id>)
    requires RowsFor(db, ev, rows, ids)
    ensures OnPaymentSucceeded(db, ev, rows, ids).seats ==
      if !HasOrderIds(ev.metadata) || !PaymentInsertable(db, ev) then db.seats
      else UpdateSeats(db.seats, SeatsIn(db, ev.metadata), Reserved, Booked)
  {
    if ev.metadata.userId.Some? && ev.metadata.eventId.Some? {
      assert forall r :: r in rows ==> r in Elements(rows);
      TicketsLeaveSeats(RecordPayment(db, ev), ev.metadata.userId.value, ev.metadata.eventId.value, rows, ids);
    }
  }

  /** The handlers with the event marked: what each does to the seats of the order. */
  lemma HandlerAlike(db: Db, ev: WebhookEvent, rows: seq<Id>, ids: seq<Id>)
    requires RowsFor(db, ev, rows, ids) && ev.id !in db.processed
    ensures AlikeOutside(db.seats, HandleEvent(db, ev, rows, ids).seats, WebhookDrops(db, ev))
  {
    var seats := SeatsIn(db, ev.metadata);
    match ev.kind
    case CollectionSucceeded =>
      PaidSeats(db, ev, rows, ids);
      GuardedUpdate(db.seats, seats, Reserved, Booked);
    case RefundPaid => GuardedUpdate(db.seats, seats, Booked, Available);
    case CollectionFailed => GuardedUpdate(db.seats, seats, Reserved, Available);
    case CheckoutExpired => GuardedUpdate(db.seats, seats, Reserved, Available);
    case _ =>
  }

  lemma DeliverAlike(db: Db, ev: WebhookEvent, rows: seq<Id>, ids: seq<Id>)
    requires RowsFor(db, ev, rows, ids)
    ensures AlikeOutside(db.seats, HandleWebhook(db, ev, rows, ids).seats, WebhookDrops(db, ev))
  {
    if ev.id !in db.processed {
      HandlerAlike(db, ev, rows, ids);
      HandlerIgnoresMarkers(db, db.processed + {ev.id}, ev, rows, ids);
    }
  }

  /** Every booking step drops the count of every section whose count it changes. */
  lemma DropsSuffice(w: World, st: Protocol.Step)
    requires Enabled(w, st)
    ensures AlikeOutside(w.db.seats, Apply(w, st).db.seats, Drops(w, st))
  {
    match st
    case Reserve(user, seatIds, holds) => ReserveAlike(w.db, user, seatIds, holds, w.now);
    case Checkout(user, section, chosen, holds, _) => ReserveAlike(w.db, user, Elements(chosen), holds, w.now);
    case Cancel(user, r) =>
    case Sweep =>
    case Deliver(ev, rows, ids) => DeliverAlike(w.db, ev, rows, ids);
    case _ =>
  }

  // ---------------------------------------------------------------- whole commits and whole fills

  /** The booking world with the cached counts, by section. */
  datatype Counted = Counted(w: World, counts: map<Id, Timed<nat>>)

  datatype Op = Book(st: Protocol.Step) | Count(section: Id)

  /** availableCount as one step. */
  function AvailableCount(c: Counted, section: Id): (Counted, Result<nat>) {
    if section !in c.w.db.sections then (c, Err(NotFound))
    else if section in c.counts && LiveAt(Some(c.counts[section]), c.w.now).Some? then (c, Ok(c.counts[section].value))
    else
      var available := |AvailableIn(c.w.db.seats, section)|;
      (c.(counts := c.counts[section := Timed(available, c.w.now + SEAT_AVAILABILITY_TTL_SECONDS)]), Ok(available))
  }

  predicate CanDo(c: Counted, op: Op) {
    op.Book? ==> Enabled(c.w, op.st)
  }

  function Do(c: Counted, op: Op): Counted
    requires CanDo(c, op)
  {
    match op
    case Book(st) => Counted(Apply(c.w, st), c.counts - Drops(c.w, st))
    case Count(section) => AvailableCount(c, section).0
  }

  predicate CanRun(c: Counted, ops: seq<Op>)
    decreases |ops|
  {
    ops != [] ==> CanDo(c, ops[0]) && CanRun(Do(c, ops[0]), ops[1..])
  }

  function DoAll(c: Counted, ops: seq<Op>): Counted
    requires CanRun(c, ops)
    decreases |ops|
  {
    if ops == [] then c else DoAll(Do(c, ops[0]), ops[1..])
  }

  ghost predicate CountsExact(seats: map<Id, Seat>, counts: map<Id, Timed<nat>>) {
    forall x :: x in counts ==> counts[x].value == |AvailableIn(seats, x)|
  }

  lemma DoKeepsExact(c: Counted, op: Op)
    requires CanDo(c, op) && CountsExact(c.w.db.seats, c.counts)
    ensures CountsExact(Do(c, op).w.db.seats, Do(c, op).counts)
  {
    if op.Book? { DropsSuffice(c.w, op.st); }
  }

  /**
   * From any database with an empty cache, availableCount gives the exact number of available seats in every reachable
   * state.
   */
  lemma {:induction false} AvailableCountExact(c: Counted, ops: seq<Op>, section: Id)
    requires CountsExact(c.w.db.seats, c.counts) && CanRun(c, ops)
    ensures var now := DoAll(c, ops);
            AvailableCount(now, section).1 ==
              if section in now.w.db.sections then Ok(|AvailableIn(now.w.db.seats, section)|) else Err(NotFound)
    decreases |ops|
  {
    if ops != [] {
      DoKeepsExact(c, ops[0]);
      AvailableCountExact(Do(c, ops[0]), ops[1..], section);
    }
  }

  // ---------------------------------------------------------------- the counts beside the reservations

  /** The pending and confirmed reservations of seats of the section. */
  function ActiveIn(db: Db, section: Id): set<Id> {
    set r | r in db.reservations && db.reservations[r].status in {Pending, Confirmed} &&
      db.reservations[r].seat in db.seats && db.seats[db.reservations[r].seat].section == section
  }

  lemma {:induction false} OneSeatEach(rows: map<Id, Reservation>, rs: set<Id>, ss: set<Id>)
    requires OneHolder(rows) && rs <= rows.Keys
    requires forall s :: s in ss <==> exists r :: r in rs && Holds(rows, r, s)
    ensures |rs| == |ss|
    decreases rs
  {
    if rs == {} {
      assert ss == {};
    } else {
      var r :| r in rs;
      var s := rows[r].seat;
      assert Holds(rows, r, s);
      forall q, x | q in rs && Holds(rows, q, x) ensures q != r <==> x != s { assert Holds(rows, r, s); }
      OneSeatEach(rows, rs - {r}, ss - {s});
    }
  }

  /** A seat is available unless it has a pending or confirmed reservation, so the counts of a section add up. */
  lemma AvailableBesideActive(db: Db, section: Id, all: set<Id>)
    requires Agree(db) && all == set s | s in db.seats && db.seats[s].section == section
    ensures |AvailableIn(db.seats, section)| + |ActiveIn(db, section)| == |all|
  {
    var active, rs := all - AvailableIn(db.seats, section), ActiveIn(db, section);
    forall s ensures s in active <==> exists r :: r in rs && Holds(db.reservations, r, s) {
      if s in active { AgreementBySeat(db, s); }
      if r :| r in rs && Holds(db.reservations, r, s) { AgreementBySeat(db, s); }
    }
    OneSeatEach(db.reservations, rs, active);
    assert all == AvailableIn(db.seats, section) + active;
  }

  lemma {:induction false} InvariantOverOps(c: Counted, ops: seq<Op>)
    requires Inv(c.w) && CanRun(c, ops)
    ensures Inv(DoAll(c, ops).w)
    decreases |ops|
  {
    if ops != [] {
      if ops[0].Book? { StepKeeps(c.w, ops[0].st); }
      InvariantOverOps(Do(c, ops[0]), ops[1..]);
    }
  }

  /**
   * From a fresh installation availableCount answers, in every reachable state, the number of the section's seats less
   * its pending and confirmed reservations.
   */
  lemma AvailableCountAddsUp(c: Counted, ops: seq<Op>, section: Id)
    requires Initial(c.w) && c.counts == map[] && CanRun(c, ops)
    ensures var now := DoAll(c, ops);
            var seats := set s | s in now.w.db.seats && now.w.db.seats[s].section == section;
            AvailableCount(now, section).1 ==
              if section in now.w.db.sections then Ok(|seats| - |ActiveIn(now.w.db, section)|) else Err(NotFound)
  {
    InitialInv(c.w);
    InvariantOverOps(c, ops);
    AvailableCountExact(c, ops, section);
    var db := DoAll(c, ops).w.db;
    AvailableBesideActive(db, section, set s | s in db.seats && db.seats[s].section == section);
  }
}
