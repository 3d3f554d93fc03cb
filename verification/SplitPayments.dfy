/**
 * A payment as it runs: its transaction commits first, its tickets are written after, and anything may happen in
 * between.
 */
module SplitPayments {
  import opened Text
  import opened Tables
  import opened Booking
  import opened Protocol
  import opened Agreement
  import opened Invariant
  import opened SeatGrants
  import opened Outcomes
  import opened Sweeps
  import opened Tickets
  import opened LateTickets

  /** The marker row and the transaction of a payment, without the tickets. */
  function CommitPayment(w: World, ev: WebhookEvent): World {
    w.(db := RecordPayment(w.db, ev).(processed := w.db.processed + {ev.id}))
  }

  /** The provider reports an order paid, for the first time. */
  predicate FirstReport(w: World, ev: WebhookEvent) {
    Echoes(w.orders, ev.metadata) && Effective(w.db, ev) && ev.kind == CollectionSucceeded
  }

  /** The tickets written when generation runs in this state. */
  function Generated(w: World, ev: WebhookEvent, rows: seq<Id>, ids: seq<Id>): map<Id, Ticket>
    requires RowsFor(w.db, ev, rows, ids) && ev.metadata.userId.Some? && ev.metadata.eventId.Some?
  {
    assert forall r :: r in rows ==> r in Elements(rows);
    IssueTickets(w.db, ev.metadata.userId.value, ev.metadata.eventId.value, rows, ids).tickets
  }

  /** Without anything in between the two halves make the whole delivery. */
  lemma HalvesMakeDelivery(w: World, ev: WebhookEvent, rows: seq<Id>, ids: seq<Id>)
    requires TicketBase(w) && FirstReport(w, ev) && RowsFor(w.db, ev, rows, ids)
    ensures ev.metadata.userId.Some? && ev.metadata.eventId.Some? && RowsFor(CommitPayment(w, ev).db, ev, rows, ids)
    ensures var mid := CommitPayment(w, ev);
            HandleWebhook(w.db, ev, rows, ids) == mid.db.(tickets := Generated(mid, ev, rows, ids))
  {
    EchoedParties(w, ev.metadata);
    var mid := CommitPayment(w, ev);
    var marked := w.db.(processed := w.db.processed + {ev.id});
    assert ReservationsIn(mid.db, ev.metadata) == ReservationsIn(w.db, ev.metadata) ==
        ReservationsIn(marked, ev.metadata);
    assert RecordPayment(marked, ev) == mid.db by { SameSelection(w, marked, ev.metadata); }
    assert forall r :: r in rows ==> r in Elements(rows);
    IssueTicketsFrame(mid.db, ev.metadata.userId.value, ev.metadata.eventId.value, rows, ids);
  }

  lemma SameSelection(w: World, after: Db, m: Metadata)
    ensures after.seats == w.db.seats && after.reservations == w.db.reservations ==>
            SeatsIn(after, m) == SeatsIn(w.db, m) && ReservationsIn(after, m) == ReservationsIn(w.db, m)
  {
  }

  /** Between the halves the tables agree and every ticket is founded; only its tickets are missing. */
  lemma CommittedBase(w: World, ev: WebhookEvent)
    requires TicketBase(w) && FirstReport(w, ev)
    ensures TicketBase(CommitPayment(w, ev))
  {
    var mid := CommitPayment(w, ev);
    EchoedLists(w, ev.metadata);
    SettleStep(w, mid.db, ReservationsIn(w.db, ev.metadata), Pending, Confirmed);
  }

  /** Generation tickets the whole order, with valid tickets where there were none, and leaves the tickets there are. */
  lemma GenerationTicketsOrder(w: World, ev: WebhookEvent, rows: seq<Id>, ids: seq<Id>, r: Id)
    requires TicketBase(w) && Echoes(w.orders, ev.metadata) && HasOrderIds(ev.metadata) && RowsFor(w.db, ev, rows, ids)
    requires r in ReservationsIn(w.db, ev.metadata)
    ensures ev.metadata.userId.Some? && ev.metadata.eventId.Some?
    ensures HasTicket(Generated(w, ev, rows, ids), r)
    ensures RefundedTicket(Generated(w, ev, rows, ids), r) <==> RefundedTicket(w.db.tickets, r)
  {
    EchoedParties(w, ev.metadata);
    OrderRows(w, ev.metadata, rows);
    PaidOrderTicketed(w.db, w.orders, ev.metadata.userId.value, ev.metadata.eventId.value, rows, ids);
    var after := Generated(w, ev, rows, ids);
    PaidHasTicket(w.db.tickets, after, w.db.reservations, Elements(rows), r);
  }

  /**
   * The exact condition, for any reservation of the order and any earlier or later payments of it: after any steps and
   * then generation its ticket is unrefunded if and only if it had no refunded ticket before, none it had before met a
   * refund in between, and no refund in between came after another payment that had written the ticket.
   */
  lemma UnrefundedIff(w: World, ev: WebhookEvent, steps: seq<Step>, rows: seq<Id>, ids: seq<Id>, r: Id)
    requires TicketBase(w) && FirstReport(w, ev) && r in ReservationsIn(w.db, ev.metadata)
    requires ValidRun(CommitPayment(w, ev), steps) && RowsFor(Run(CommitPayment(w, ev), steps).db, ev, rows, ids)
    ensures ev.metadata.userId.Some? && ev.metadata.eventId.Some?
    ensures var end := Run(CommitPayment(w, ev), steps);
            var tickets := Generated(end, ev, rows, ids);
            var sigs := Signals(CommitPayment(w, ev), steps, r);
            && HasTicket(tickets, r) && r in end.db.reservations
            && end.db.reservations[r].status == After(CommitPayment(w, ev).db.reservations[r].status, sigs)
            && (!RefundedTicket(tickets, r) <==>
                  && !RefundedTicket(w.db.tickets, r)
                  && !(HasTicket(w.db.tickets, r) && RefundSettled in sigs)
                  && !PaidThenRefunded(sigs))
  {
    var mid := CommitPayment(w, ev);
    var end := Run(mid, steps);
    CommittedBase(w, ev);
    EchoedParties(w, ev.metadata);
    TicketInvOverRuns(mid, steps);
    StillEchoed(mid, steps, ev.metadata);
    StatusAfterRun(mid, steps, r);
    TicketFate(mid, steps, r);
    GenerationTicketsOrder(end, ev, rows, ids, r);
  }

  /**
   * For a hold that the payment confirmed: the reservation ends REFUNDED with a ticket that was never refunded if and
   * only if a refund settled in between and no payment of the order came in before it to write the tickets first.
   */
  lemma RefundMissesTicketIff(w: World, ev: WebhookEvent, steps: seq<Step>, rows: seq<Id>, ids: seq<Id>, r: Id)
    requires TicketInv(w) && FirstReport(w, ev)
    requires r in ReservationsIn(w.db, ev.metadata) && w.db.reservations[r].status == Pending
    requires ValidRun(CommitPayment(w, ev), steps) && RowsFor(Run(CommitPayment(w, ev), steps).db, ev, rows, ids)
    ensures ev.metadata.userId.Some? && ev.metadata.eventId.Some?
    ensures var end := Run(CommitPayment(w, ev), steps);
            var tickets := Generated(end, ev, rows, ids);
            var sigs := Signals(CommitPayment(w, ev), steps, r);
            && HasTicket(tickets, r) && r in end.db.reservations
            && (end.db.reservations[r].status == Refunded && !RefundedTicket(tickets, r) <==>
                RefundSettled in sigs && !PaidThenRefunded(sigs))
  {
    UnrefundedIff(w, ev, steps, rows, ids, r);
  }

  // ---------------------------------------------------------------- the input

  lemma HeldOrder(ev: WebhookEvent)
    requires ev.metadata == OrderMetadata(ORDER) && ev.kind == CollectionSucceeded
    ensures TicketInv(HeldShop(601)) && FirstReport(HeldShop(601), ev)
    ensures ReservationsIn(HeldShop(601).db, ev.metadata) == {8}
  {
    HeldShopInv();
    var w := HeldShop(601);
    assert w.orders[0] == ORDER && OrderMetadata(w.orders[0]) == ev.metadata;
    MetadataRoundTrip(w.db, ORDER);
    OneHold(8);
  }

  lemma RefundedInBetween(mid: World, refund: WebhookEvent)
    requires Inv(mid) && mid.db.tickets == map[] && ReservationsIn(mid.db, refund.metadata) == {8}
    requires Echoes(mid.orders, refund.metadata) && Effective(mid.db, refund) && refund.kind == RefundPaid
    ensures var st := Deliver(refund, [8], [30]);
            && Enabled(mid, st) && SignalTo(mid, st, 8) == RefundSettled
            && Apply(mid, st).db.tickets == map[] && Apply(mid, st).db.reservations.Keys == mid.db.reservations.Keys
  {
    DeliverRows(mid, refund, [8], [30]);
  }

  /** From any state in which reservation 8 is a lone hold of its order and there are no tickets yet. */
  lemma RefundBetween(w: World, paid: WebhookEvent, refund: WebhookEvent)
    requires TicketInv(w) && FirstReport(w, paid) && w.db.tickets == map[] && ReservationsIn(w.db, paid.metadata) == {8}
    requires w.db.reservations[8].status == Pending
    requires refund.kind == RefundPaid && refund.metadata == paid.metadata && refund.id !in w.db.processed &&
            refund.id != paid.id
    ensures var (mid, st) := (CommitPayment(w, paid), Deliver(refund, [8], [30]));
            && Enabled(mid, st) && RowsFor(Apply(mid, st).db, paid, [8], [20])
            && ValidRun(mid, [st]) && Run(mid, [st]) == Apply(mid, st)
            && Signals(mid, [st], 8) == [RefundSettled]
  {
    var mid := CommitPayment(w, paid);
    CommittedBase(w, paid);
    RefundedInBetween(mid, refund);
    var st := Deliver(refund, [8], [30]);
    RunStep(mid, st, Apply(mid, st), []);
    assert [st] + [] == [st];
    assert Signals(mid, [st], 8) == [SignalTo(mid, st, 8)];
  }

  /**
   * The input: a refund delivered between the two halves leaves a REFUNDED reservation with a ticket that is not
   * refunded.
   */
  lemma RefundBetweenHalves(paid: WebhookEvent, refund: WebhookEvent)
    requires paid.kind == CollectionSucceeded && refund.kind == RefundPaid && paid.id != refund.id
    requires paid.metadata == refund.metadata == OrderMetadata(ORDER)
    ensures var mid := CommitPayment(HeldShop(601), paid);
            var steps := [Deliver(refund, [8], [30])];
            && ValidRun(mid, steps) && RowsFor(Run(mid, steps).db, paid, [8], [20])
            && paid.metadata.userId.Some? && paid.metadata.eventId.Some?
            && 8 in Run(mid, steps).db.reservations && Run(mid, steps).db.reservations[8].status == Refunded
            && HasTicket(Generated(Run(mid, steps), paid, [8], [20]), 8)
            && !RefundedTicket(Generated(Run(mid, steps), paid, [8], [20]), 8)
  {
    HeldOrder(paid);
    RefundBetween(HeldShop(601), paid, refund);
    RefundMissesTicketIff(HeldShop(601), paid, [Deliver(refund, [8], [30])], [8], [20], 8);
  }
}
