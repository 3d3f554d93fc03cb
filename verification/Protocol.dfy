/** Runs of the booking protocol: any interleaving of requests, sweeps, provider events and clock ticks. */
module Protocol {
  import opened Text
  import opened Tables
  import opened Booking

  /** The database, the orders handed to the payment provider so far, and the clock in seconds. */
  datatype World = World(db: Db, orders: seq<Order>, now: int)

  datatype Step =
    | Catalogue(users: set<Id>, events: map<Id, EventRow>, sections: map<Id, Section>)
    | BulkCreate(section: Id, seats: set<Id>)
    | Remove(seat: Id)
    | Reserve(user: Id, seatIds: set<Id>, holds: map<Id, Id>)
    | Checkout(user: Id, section: Id, chosen: seq<Id>, holds: map<Id, Id>, listing: seq<Id>)
    | Cancel(user: Id, reservation: Id)
    | Sweep
    | Deliver(ev: WebhookEvent, rows: seq<Id>, ids: seq<Id>)
    | Scan(qr: QrPayload, scanner: Id)
    | Tick(elapsed: nat)

  /** The provider only echoes metadata minted by a checkout, or sends none. */
  predicate Echoes(orders: seq<Order>, m: Metadata) {
    !HasOrderIds(m) || exists i :: 0 <= i < |orders| && OrderMetadata(orders[i]) == m
  }

  /**
   * What the environment guarantees: fresh identifiers, echoed metadata, and accounts and events that never disappear.
   */
  predicate Enabled(w: World, st: Step) {
    match st
    case Catalogue(users, events, sections) =>
      w.db.users <= users && w.db.events.Keys <= events.Keys
    case BulkCreate(section, seats) => forall s :: s in seats ==> s !in w.db.seats
    case Reserve(user, seatIds, holds) => FreshHolds(w.db, seatIds, holds)
    case Checkout(user, section, chosen, holds, listing) =>
      FreshHolds(w.db, Elements(chosen), holds) && NoDuplicates(listing) && Elements(listing) == holds.Keys
    case Deliver(ev, rows, ids) => Echoes(w.orders, ev.metadata) && RowsFor(w.db, ev, rows, ids)
    case _ => true
  }

  function Apply(w: World, st: Step): World
    requires Enabled(w, st)
  {
    match st
    case Catalogue(users, events, sections) => w.(db := w.db.(users := users, events := events, sections := sections))
    case BulkCreate(section, seats) => w.(db := AddSeats(w.db, section, seats))
    case Remove(seat) => w.(db := RemoveSeat(w.db, seat).0)
    case Reserve(user, seatIds, holds) => w.(db := CreateReservations(w.db, user, seatIds, holds, w.now).0)
    case Checkout(user, section, chosen, holds, listing) =>
      var (db1, order) := CreateCheckout(w.db, user, section, chosen, holds, listing, w.now);
      w.(db := db1, orders := if order.Ok? then w.orders + [order.value] else w.orders)
    case Cancel(user, r) => w.(db := CancelReservation(w.db, user, r).0)
    case Sweep => w.(db := ExpireOverdue(w.db, w.now))
    case Deliver(ev, rows, ids) => w.(db := HandleWebhook(w.db, ev, rows, ids))
    case Scan(qr, scanner) => w.(db := ValidateTicket(w.db, qr, scanner).0)
    case Tick(elapsed) => w.(now := w.now + elapsed)
  }

  predicate ValidRun(w: World, steps: seq<Step>)
    decreases |steps|
  {
    steps != [] ==> Enabled(w, steps[0]) && ValidRun(Apply(w, steps[0]), steps[1..])
  }

  function Run(w: World, steps: seq<Step>): World
    requires ValidRun(w, steps)
    decreases |steps|
  {
    if steps == [] then w else Run(Apply(w, steps[0]), steps[1..])
  }

  /** A fresh installation: any accounts and events, but no seats, bookings or provider events yet. */
  predicate Initial(w: World) {
    w.db.seats == map[] && w.db.reservations == map[] && w.db.payments == [] && w.db.tickets == map[] &&
    w.db.processed == {} && w.orders == []
  }
}
