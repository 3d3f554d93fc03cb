/** The rows of the ticketing database, with the columns the booking protocol reads or writes. */
module Tables {
  import opened Text

  /** Identifiers are numbers whose text form is their numeral: comma-free, never empty and injective, as for a UUID. */
  type Id = nat

  function IdText(id: Id): string {
    Decimal(id)
  }

  function IdTexts(ids: seq<Id>): (texts: seq<string>)
    ensures |texts| == |ids| && forall i :: 0 <= i < |ids| ==> texts[i] == IdText(ids[i])
  {
    if ids == [] then [] else [IdText(ids[0])] + IdTexts(ids[1..])
  }

  datatype Option<+T> = None | Some(value: T)

  /** The error classes the services raise; Rejected is a failed database constraint, Crash a TypeError. */
  datatype Error = NotFound | Conflict | Forbidden | BadRequest | Unauthorized | Invalid | Rejected | Crash

  datatype Result<+T> = Ok(value: T) | Err(error: Error)

  datatype SeatStatus = Available | Reserved | Booked
  datatype ReservationStatus = Pending | Expired | Confirmed | Refunded
  datatype PaymentStatus = Unsettled | Successful | Failed | Returned
  datatype EventStatus = Draft | Published | Cancelled

  datatype EventRow = EventRow(organizer: Id, status: EventStatus)
  datatype Section = Section(event: Id, productId: Option<Id>)
  datatype Seat = Seat(section: Id, status: SeatStatus)
  datatype Reservation = Reservation(user: Id, seat: Id, status: ReservationStatus, expiresAt: int)
  datatype Payment = Payment(user: Option<Id>, amount: int, reference: Id, status: PaymentStatus, idempotencyKey: Id)
  datatype Ticket = Ticket(reservation: Id, user: Id, event: Id, seat: Id, isUsed: bool, isRefunded: bool)

  /** One committed database state. Payments are kept in insertion order. */
  datatype Db = Db(
    users: set<Id>,
    events: map<Id, EventRow>,
    sections: map<Id, Section>,
    seats: map<Id, Seat>,
    reservations: map<Id, Reservation>,
    payments: seq<Payment>,
    tickets: map<Id, Ticket>,
    processed: set<Id>)

  /** The metadata object of a provider event. An absent list and an empty text are alike to the handlers. */
  datatype Metadata = Metadata(userId: Option<Id>, sectionId: Option<Id>, eventId: Option<Id>, reservationIds: string,
      seatIds: string)

  datatype EventKind = CollectionSucceeded | CollectionFailed | CheckoutExpired | RefundCreated | RefundPaid | Unhandled

  datatype WebhookEvent = WebhookEvent(id: Id, kind: EventKind, metadata: Metadata, amount: Option<int>, reference: Id)

  /** What a checkout hands to the payment provider. */
  datatype Order = Order(user: Id, section: Id, event: Id, reservations: seq<Id>, seats: seq<Id>)

  function OrderMetadata(o: Order): Metadata {
    Metadata(Some(o.user), Some(o.section), Some(o.event), Join(IdTexts(o.reservations)), Join(IdTexts(o.seats)))
  }

  function OrderReference(o: Order): string
    requires o.reservations != []
  {
    "order_" + IdText(o.reservations[0])
  }
}
