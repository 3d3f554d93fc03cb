/** The booking operations as functions from one committed database state to the next. */
module Booking {
  import opened Text
  import opened Tables

  const RESERVATION_TTL_SECONDS: int := 10 * 60

  // ---------------------------------------------------------------- guarded updates

  /** UPDATE reservations SET status = to WHERE id IN (ids) AND status = from. */
  function UpdateReservations(rows: map<Id, Reservation>, ids: set<Id>, from: ReservationStatus, to: ReservationStatus)
    : map<Id, Reservation>
  {
    map r | r in rows :: if r in ids && rows[r].status == from then rows[r].(status := to) else rows[r]
  }

  /** UPDATE seats SET status = to WHERE id IN (ids) AND status = from. */
  function UpdateSeats(rows: map<Id, Seat>, ids: set<Id>, from: SeatStatus, to: SeatStatus): map<Id, Seat> {
    map s | s in rows :: if s in ids && rows[s].status == from then rows[s].(status := to) else rows[s]
  }

  // ---------------------------------------------------------------- reservations

  predicate OnSale(db: Db, s: Id)
    requires s in db.seats
  {
    var x := db.seats[s].section;
    x in db.sections && db.sections[x].event in db.events && db.events[db.sections[x].event].status == Published
  }

  /** The guards of ReservationsService.create, in its order. */
  function ReserveCheck(db: Db, seatIds: set<Id>): Option<Error> {
    if exists s :: s in seatIds && s !in db.seats then Some(NotFound)
    else if exists s :: s in seatIds && db.seats[s].status != Available then Some(Conflict)
    else if exists s :: s in seatIds && !OnSale(db, s) then Some(Conflict)
    else None
  }

  /** The constraints on the inserted reservation rows: the unique index on seat_id and the user foreign key. */
  predicate HoldsInsertable(db: Db, user: Id, seatIds: set<Id>) {
    && (forall r :: r in db.reservations ==> db.reservations[r].seat !in seatIds)
    && (seatIds != {} ==> user in db.users)
  }

  function ReservedSeats(seats: map<Id, Seat>, ids: set<Id>): map<Id, Seat> {
    map s | s in seats :: if s in ids then seats[s].(status := Reserved) else seats[s]
  }

  function NewReservations(user: Id, holds: map<Id, Id>, now: int): map<Id, Reservation> {
    map r | r in holds :: Reservation(user, holds[r], Pending, now + RESERVATION_TTL_SECONDS)
  }

  /** The writes of create: each seat RESERVED, one PENDING reservation per seat. `holds` maps new ids to seats. */
  function InsertHolds(db: Db, user: Id, holds: map<Id, Id>, now: int): Db {
    db.(seats := ReservedSeats(db.seats, holds.Values),
        reservations := db.reservations + NewReservations(user, holds, now))
  }

  /** `holds` assigns fresh ids, one per seat. */
  predicate FreshHolds(db: Db, seatIds: set<Id>, holds: map<Id, Id>) {
    && holds.Values == seatIds
    && (forall r, q :: r in holds && q in holds && holds[r] == holds[q] ==> r == q)
    && (forall r :: r in holds ==> r !in db.reservations)
  }

  /** ReservationsService.create; a failure leaves the state unchanged. */
  function CreateReservations(db: Db, user: Id, seatIds: set<Id>, holds: map<Id, Id>, now: int): (Db, Result<set<Id>>) {
    match ReserveCheck(db, seatIds)
    case Some(e) => (db, Err(e))
    case None =>
      if HoldsInsertable(db, user, seatIds) then (InsertHolds(db, user, holds, now), Ok(holds.Keys))
      else (db, Err(Rejected))
  }

  /** The look-up of cancel, outside its transaction. */
  function CancelRead(db: Db, user: Id, r: Id): Option<Error> {
    if r !in db.reservations then Some(NotFound)
    else if db.reservations[r].user != user then Some(Forbidden)
    else if db.reservations[r].status != Pending then Some(Conflict)
    else None
  }

  /** The transaction of cancel, which reads the row again under its lock. */
  function CancelLocked(db: Db, r: Id): (Db, Result<()>) {
    if r !in db.reservations || db.reservations[r].status != Pending then (db, Err(Conflict))
    else
      (db.(reservations := db.reservations[r := db.reservations[r].(status := Expired)],
           seats := UpdateSeats(db.seats, {db.reservations[r].seat}, Reserved, Available)), Ok(()))
  }

  /** ReservationsService.cancel with nothing in between. */
  function CancelReservation(db: Db, user: Id, r: Id): (Db, Result<()>) {
    match CancelRead(db, user, r)
    case Some(e) => (db, Err(e))
    case None => CancelLocked(db, r)
  }

  predicate IsOverdue(db: Db, r: Id, now: int) {
    r in db.reservations && db.reservations[r].status == Pending && db.reservations[r].expiresAt < now
  }

  function Overdue(db: Db, now: int): set<Id> {
    set r | r in db.reservations && IsOverdue(db, r, now)
  }

  /** The seats of the given reservations. */
  function SeatsOf(db: Db, rs: set<Id>): set<Id> {
    set r | r in rs && r in db.reservations :: db.reservations[r].seat
  }

  /** ReservationsService.expireOverdue run as one transaction. */
  function ExpireOverdue(db: Db, now: int): Db {
    var overdue := Overdue(db, now);
    db.(reservations := UpdateReservations(db.reservations, overdue, Pending, Expired),
        seats := UpdateSeats(db.seats, SeatsOf(db, overdue), Reserved, Available))
  }

  // ---------------------------------------------------------------- checkout

  /** The seats a query by id returns: each existing one once. */
  function FoundSeats(db: Db, seatIds: seq<Id>): set<Id> {
    set s | s in seatIds && s in db.seats
  }

  /** The guards of createCheckoutSession before it reserves, in their order. */
  function CheckoutCheck(db: Db, section: Id, seatIds: seq<Id>): Option<Error> {
    if section !in db.sections then Some(NotFound)
    else if db.sections[section].productId.None? then Some(BadRequest)
    else if db.sections[section].event !in db.events || db.events[db.sections[section].event].status != Published then
        Some(BadRequest)
    else if |FoundSeats(db, seatIds)| != |seatIds| then Some(NotFound)
    else if exists s :: s in seatIds && s in db.seats && db.seats[s].section != section then Some(BadRequest)
    else if exists s :: s in seatIds && s in db.seats && db.seats[s].status != Available then Some(Conflict)
    else None
  }

  /** What createCheckoutSession does once its guards have passed, with the section row they read. */
  function ReserveAndMint(db: Db, user: Id, section: Id, row: Section, seatIds: seq<Id>, holds: map<Id, Id>,
                          listing: seq<Id>, now: int): (Db, Result<Order>)
  {
    var (db1, reserved) := CreateReservations(db, user, Elements(seatIds), holds, now);
    match reserved
    case Err(e) => (db1, Err(e))
    case Ok(_) =>
      if user !in db1.users then (db1, Err(NotFound))
      else if listing == [] then (db1, Err(Crash))
      else (db1, Ok(Order(user, section, row.event, listing, seatIds)))
  }

  /** PaymentsService.createCheckoutSession with nothing in between; the order is what the provider receives. */
  function CreateCheckout(db: Db, user: Id, section: Id, seatIds: seq<Id>, holds: map<Id, Id>, listing: seq<Id>,
                          now: int): (Db, Result<Order>)
  {
    match CheckoutCheck(db, section, seatIds)
    case Some(e) => (db, Err(e))
    case None => ReserveAndMint(db, user, section, db.sections[section], seatIds, holds, listing, now)
  }

  // ---------------------------------------------------------------- webhooks

  predicate HasOrderIds(m: Metadata) {
    m.reservationIds != "" && m.seatIds != ""
  }

  /** The reservations whose id is in the parsed list. */
  function ReservationsIn(db: Db, m: Metadata): set<Id> {
    set r | r in db.reservations && IdText(r) in Split(m.reservationIds)
  }

  /** The seats whose id is in the parsed list. */
  function SeatsIn(db: Db, m: Metadata): set<Id> {
    set s | s in db.seats && IdText(s) in Split(m.seatIds)
  }

  function AmountOf(ev: WebhookEvent): int {
    match ev.amount case Some(a) => a case None => 0
  }

  /** The payment row satisfies the unique idempotency key and the user foreign key. */
  predicate PaymentInsertable(db: Db, ev: WebhookEvent) {
    && (forall i :: 0 <= i < |db.payments| ==> db.payments[i].idempotencyKey != ev.id)
    && (ev.metadata.userId.Some? ==> ev.metadata.userId.value in db.users)
  }

  /** The transaction of onPaymentSucceeded, for a payment row that can be inserted. */
  function RecordPayment(db: Db, ev: WebhookEvent): Db {
    db.(reservations := UpdateReservations(db.reservations, ReservationsIn(db, ev.metadata), Pending, Confirmed),
        seats := UpdateSeats(db.seats, SeatsIn(db, ev.metadata), Reserved, Booked),
        payments := db.payments +
          [Payment(ev.metadata.userId, AmountOf(ev), ev.reference, Successful, ev.id)])
  }

  predicate Ticketed(db: Db, r: Id) {
    exists t :: t in db.tickets && db.tickets[t].reservation == r
  }

  predicate SeatTicketed(db: Db, s: Id) {
    exists t :: t in db.tickets && db.tickets[t].seat == s
  }

  /** The loop of generateForReservations over the found rows; the first insert that breaks a unique index throws. */
  function IssueTickets(db: Db, user: Id, event: Id, rows: seq<Id>, ids: seq<Id>): Db
    requires |rows| == |ids|
    requires forall r :: r in rows ==> r in db.reservations
    decreases |rows|
  {
    if rows == [] then db
    else
      var seat := db.reservations[rows[0]].seat;
      if Ticketed(db, rows[0]) || SeatTicketed(db, seat) || ids[0] in db.tickets then db
      else
        IssueTickets(db.(tickets := db.tickets[ids[0] := Ticket(rows[0], user, event, seat, false, false)]),
                     user, event, rows[1..], ids[1..])
  }

  /** The order in which the database returns the reservations of the event, and fresh ids for their tickets. */
  predicate RowsFor(db: Db, ev: WebhookEvent, rows: seq<Id>, ids: seq<Id>) {
    && NoDuplicates(rows)
    && Elements(rows) == ReservationsIn(db, ev.metadata)
    && |ids| == |rows|
    && NoDuplicates(ids)
    && (forall t :: t in ids ==> t !in db.tickets)
  }

  function OnPaymentSucceeded(db: Db, ev: WebhookEvent, rows: seq<Id>, ids: seq<Id>): Db
    requires RowsFor(db, ev, rows, ids)
  {
    if !HasOrderIds(ev.metadata) || !PaymentInsertable(db, ev) then db
    else
      var paid := RecordPayment(db, ev);
      if ev.metadata.userId.Some? && ev.metadata.eventId.Some? && ev.metadata.eventId.value in db.events
      && ev.metadata.userId.value in db.users
      then
        assert forall r :: r in rows ==> r in Elements(rows);
        IssueTickets(paid, ev.metadata.userId.value, ev.metadata.eventId.value, rows, ids)
      else paid
  }

  /** releaseHold, for collection.failed and checkout.expired. */
  function ReleaseHold(db: Db, ev: WebhookEvent): Db {
    if !HasOrderIds(ev.metadata) then db
    else db.(reservations := UpdateReservations(db.reservations, ReservationsIn(db, ev.metadata), Pending, Expired),
             seats := UpdateSeats(db.seats, SeatsIn(db, ev.metadata), Reserved, Available))
  }

  function RefundPayments(payments: seq<Payment>, user: Id): (r: seq<Payment>)
    ensures |r| == |payments|
  {
    seq(|payments|, i requires 0 <= i < |payments| =>
      if payments[i].user == Some(user) && payments[i].status == Successful then payments[i].(status := Returned)
      else payments[i])
  }

  function RefundTickets(tickets: map<Id, Ticket>, rs: set<Id>): map<Id, Ticket> {
    map t | t in tickets :: if tickets[t].reservation in rs then tickets[t].(isRefunded := true) else tickets[t]
  }

  function OnRefundPaid(db: Db, ev: WebhookEvent): Db {
    if !HasOrderIds(ev.metadata) then db
    else db.(reservations := UpdateReservations(db.reservations, ReservationsIn(db, ev.metadata), Confirmed, Refunded),
             seats := UpdateSeats(db.seats, SeatsIn(db, ev.metadata), Booked, Available),
             payments := if ev.metadata.userId.None? then db.payments
                 else RefundPayments(db.payments, ev.metadata.userId.value),
             tickets := RefundTickets(db.tickets, ReservationsIn(db, ev.metadata)))
  }

  function HandleEvent(db: Db, ev: WebhookEvent, rows: seq<Id>, ids: seq<Id>): Db
    requires RowsFor(db, ev, rows, ids)
  {
    match ev.kind
    case CollectionSucceeded => OnPaymentSucceeded(db, ev, rows, ids)
    case CollectionFailed => ReleaseHold(db, ev)
    case CheckoutExpired => ReleaseHold(db, ev)
    case RefundCreated => db
    case RefundPaid => OnRefundPaid(db, ev)
    case Unhandled => db
  }

  /** handleBachsWebhook: the marker row first, then the handler; a marked event is skipped. */
  function HandleWebhook(db: Db, ev: WebhookEvent, rows: seq<Id>, ids: seq<Id>): Db
    requires RowsFor(db, ev, rows, ids)
  {
    if ev.id in db.processed then db
    else HandleEvent(db.(processed := db.processed + {ev.id}), ev, rows, ids)
  }

  // ---------------------------------------------------------------- door scans

  /** A scanned text: not JSON, JSON with a wrong signature, or a correctly signed ticket id. */
  datatype QrPayload = Unreadable | Forged | Signed(ticket: Id)

  /** TicketsService.validate; the result says whether the ticket had been used already. */
  function ValidateTicket(db: Db, qr: QrPayload, scanner: Id): (Db, Result<bool>) {
    if qr.Unreadable? then (db, Err(Invalid))
    else if qr.Forged? then (db, Err(Unauthorized))
    else if qr.ticket !in db.tickets then (db, Err(NotFound))
    else
      var t := db.tickets[qr.ticket];
      if t.event !in db.events then (db, Err(Crash))
      else if db.events[t.event].organizer != scanner then (db, Err(Forbidden))
      else if t.isRefunded then (db, Err(Unauthorized))
      else if t.isUsed then (db, Ok(true))
      else (db.(tickets := db.tickets[qr.ticket := t.(isUsed := true)]), Ok(false))
  }

  // ---------------------------------------------------------------- seats

  /** SeatsService.bulkCreate within the capacity. */
  function AddSeats(db: Db, section: Id, ids: set<Id>): Db {
    db.(seats := db.seats + (map s | s in ids :: Seat(section, Available)))
  }

  /** SeatsService.remove: the foreign keys of reservations and tickets keep a seat they point to. */
  function RemoveSeat(db: Db, s: Id): (Db, Result<()>) {
    if s !in db.seats then (db, Err(NotFound))
    else if (exists r :: r in db.reservations && db.reservations[r].seat == s) || SeatTicketed(db, s) then
        (db, Err(Rejected))
    else (db.(seats := db.seats - {s}), Ok(()))
  }
}
