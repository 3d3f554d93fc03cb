/** Refunds match payments by user: when a refund stays inside its own order, and a run in which it does not. */
module Refunds {
  import opened Text
  import opened Tables
  import opened Booking
  import opened Protocol
  import opened Agreement
  import opened Invariant
  import opened SeatGrants
  import opened Checkouts
  import opened Tickets
  import opened Admissions
  import opened Money

  /** The metadata the payments were collected with, in payment order. */
  function Sources(seen: set<Id>, steps: seq<Step>): seq<Metadata>
    decreases |steps|
  {
    if steps == [] then []
    else
      var rest := Sources(Seen(seen, steps[0]), steps[1..]);
      if Collects(seen, steps[0]) then [steps[0].ev.metadata] + rest else rest
  }

  lemma {:induction false} SourcesMatch(seen: set<Id>, steps: seq<Step>)
    ensures |Sources(seen, steps)| == |Collected(seen, steps)|
    ensures forall i :: 0 <= i < |Sources(seen, steps)| ==>
              Sources(seen, steps)[i].userId == Collected(seen, steps)[i].user && HasOrderIds(Sources(seen, steps)[i])
    decreases |steps|
  {
    if steps != [] { SourcesMatch(Seen(seen, steps[0]), steps[1..]); }
  }

  lemma {:induction false} SourcesEchoed(w: World, steps: seq<Step>)
    requires Inv(w) && ValidRun(w, steps)
    ensures forall i :: 0 <= i < |Sources(w.db.processed, steps)| ==>
              Echoes(Run(w, steps).orders, Sources(w.db.processed, steps)[i])
    decreases |steps|
  {
    if steps != [] {
      StepKeeps(w, steps[0]);
      LedgerAfterStep(w, steps[0]);
      SourcesEchoed(Apply(w, steps[0]), steps[1..]);
      if Collects(w.db.processed, steps[0]) { StillEchoed(w, steps, steps[0].ev.metadata); }
    }
  }

  /** Each payment of a reachable state, with the metadata of the order it paid for. */
  lemma PaymentSources(w: World, steps: seq<Step>)
    requires Initial(w) && ValidRun(w, steps)
    ensures Inv(Run(w, steps))
    ensures |Run(w, steps).db.payments| == |Sources({}, steps)|
    ensures forall i :: 0 <= i < |Sources({}, steps)| ==>
              && Run(w, steps).db.payments[i].user == Sources({}, steps)[i].userId
              && HasOrderIds(Sources({}, steps)[i]) && Echoes(Run(w, steps).orders, Sources({}, steps)[i])
  {
    InitialInv(w);
    InvariantOverRuns(w, steps);
    EveryCollectionPaidOnce(w, steps);
    SourcesMatch({}, steps);
    SourcesEchoed(w, steps);
    var payments := Run(w, steps).db.payments;
    forall i | 0 <= i < |payments| ensures payments[i].user == Collected({}, steps)[i].user {
      assert Ledger(payments)[i] == ChargeOf(payments[i]);
    }
  }

  /**
   * A refund leaves the payments of every other order as they were if and only if its user has no successful payment
   * for another order.
   */
  lemma RefundStaysInOrderIff(w: World, steps: seq<Step>, st: Step)
    requires Initial(w) && ValidRun(w, steps) && Enabled(Run(w, steps), st) && Refunds(Run(w, steps).db.processed, st)
    ensures var before, after, sources := Run(w, steps).db.payments, Apply(Run(w, steps), st).db.payments,
            Sources({}, steps);
            && |before| == |sources| == |after|
            && ((forall i :: 0 <= i < |sources| && sources[i] != st.ev.metadata ==> after[i] == before[i]) <==>
                (forall i :: 0 <= i < |sources| && sources[i] != st.ev.metadata && before[i].status == Successful ==>
                   sources[i].userId != st.ev.metadata.userId))
  {
    PaymentSources(w, steps);
    var end := Run(w, steps);
    StepPayments(end, st);
  }

  lemma ApartByMetadata(w: World, m: Metadata, other: Metadata)
    requires OrdersOk(w) && Echoes(w.orders, m) && Echoes(w.orders, other) && HasOrderIds(m) && HasOrderIds(other) &&
            m != other
    ensures forall r :: r in w.orders[OrderIndex(w.orders, other)].reservations ==>
              r !in w.orders[OrderIndex(w.orders, m)].reservations
  {
  }

  /** Orders with different metadata have no reservation in common. */
  lemma OtherOrder(w: World, m: Metadata, other: Metadata, r: Id)
    requires Inv(w) && Echoes(w.orders, m) && Echoes(w.orders, other) && HasOrderIds(m) && HasOrderIds(other) &&
            m != other
    requires r in ReservationsIn(w.db, other)
    ensures r !in ReservationsIn(w.db, m) && Some(w.db.reservations[r].user) == other.userId
  {
    EchoedLists(w, m);
    EchoedLists(w, other);
    ApartByMetadata(w, m, other);
    var o := w.orders[OrderIndex(w.orders, other)];
    assert r in o.reservations && OrderOk(w.db, o);
  }

  /** A refund leaves the reservations it does not name, and their tickets, as they were. */
  lemma RefundSparesOthers(w: World, st: Step, r: Id)
    requires Inv(w) && Enabled(w, st) && IsRefund(w, st)
    requires r in w.db.reservations && r !in ReservationsIn(w.db, st.ev.metadata)
    ensures var before, after := w.db, Apply(w, st).db;
            && r in after.reservations && after.reservations[r] == before.reservations[r]
            && (forall t :: TicketOf(after.tickets, t, r) <==> TicketOf(before.tickets, t, r))
            && (forall t :: TicketOf(before.tickets, t, r) ==> after.tickets[t] == before.tickets[t])
  {
    DeliverRows(w, st.ev, st.rows, st.ids);
    RefundTicketsFrame(w.db, st.ev, st.rows, st.ids);
  }

  /**
   * Otherwise the refund returns a payment of another order of its user, while that order's reservations, all of the
   * same user, and their tickets stay exactly as they were.
   */
  lemma RefundReachesOtherOrders(w: World, steps: seq<Step>, st: Step, i: nat, r: Id)
    requires Initial(w) && ValidRun(w, steps) && Enabled(Run(w, steps), st) && Refunds(Run(w, steps).db.processed, st)
    requires i < |Run(w, steps).db.payments| == |Sources({}, steps)|
    requires Run(w, steps).db.payments[i].status == Successful
    requires Sources({}, steps)[i] != st.ev.metadata && Sources({}, steps)[i].userId == st.ev.metadata.userId
    requires r in ReservationsIn(Run(w, steps).db, Sources({}, steps)[i])
    ensures var before, after := Run(w, steps).db, Apply(Run(w, steps), st).db;
            && i < |after.payments| && after.payments[i].status == Returned
            && Some(before.reservations[r].user) == st.ev.metadata.userId
            && r in after.reservations && after.reservations[r] == before.reservations[r]
            && (forall t :: TicketOf(after.tickets, t, r) <==> TicketOf(before.tickets, t, r))
            && (forall t :: TicketOf(before.tickets, t, r) ==> after.tickets[t] == before.tickets[t])
  {
    var end := Run(w, steps);
    PaymentSources(w, steps);
    OtherOrder(end, st.ev.metadata, Sources({}, steps)[i], r);
    EchoedParties(end, st.ev.metadata);
    RefundSparesOthers(end, st, r);
  }

  // ---------------------------------------------------------------- the run

  /** User 1 checks out one open seat of section 5. */
  function Bought(w: World, s: Id, r: Id): World {
    w.(db := w.db.(seats := w.db.seats[s := Seat(5, Reserved)],
                   reservations := w.db.reservations[r := Reservation(1, s, Pending, w.now + RESERVATION_TTL_SECONDS)]),
       orders := w.orders + [Order(1, 5, 3, [r], [s])])
  }

  predicate OpenSeat(w: World, s: Id) {
    && w.db.users == {1, 2} && w.db.events == map[3 := EventRow(4, Published)] &&
        w.db.sections == map[5 := Section(3, Some(6))]
    && s in w.db.seats && w.db.seats[s] == Seat(5, Available)
    && forall q :: q in w.db.reservations ==> w.db.reservations[q].seat != s
  }

  lemma SeatBought(w: World, s: Id, r: Id)
    requires OpenSeat(w, s) && r !in w.db.reservations
    ensures var st := Step.Checkout(1, 5, [s], map[r := s], [r]); Enabled(w, st) && Apply(w, st) == Bought(w, s, r)
  {
    var holds := map[r := s];
    OneFreshHold(w.db, s, r);
    CheckoutSucceedsIff(w.db, 1, 5, [s], holds, [r], w.now);
    CheckoutReserves(w.db, 1, 5, [s], holds, [r], w.now);
    OneHoldInserted(w, s, r);
  }

  lemma OneFreshHold(db: Db, s: Id, r: Id)
    requires r !in db.reservations
    ensures Elements([s]) == {s} && Elements([r]) == {r} && (map[r := s]).Keys == {r}
    ensures FreshHolds(db, {s}, map[r := s])
  {
    assert (map[r := s])[r] == s;
  }

  lemma OneHoldInserted(w: World, s: Id, r: Id)
    requires s in w.db.seats && w.db.seats[s] == Seat(5, Available)
    ensures InsertHolds(w.db, 1, map[r := s], w.now) == Bought(w, s, r).db
  {
    var holds := map[r := s];
    assert holds.Values == {s} by { assert holds[r] == s; }
    var after := InsertHolds(w.db, 1, holds, w.now);
    assert after.seats == Bought(w, s, r).db.seats;
    assert after.reservations == Bought(w, s, r).db.reservations;
  }

  /** The payment of that order. */
  function PaidFor(w: World, ev: WebhookEvent, s: Id, r: Id, t: Id): World
    requires s in w.db.seats && r in w.db.reservations
  {
    w.(db := w.db.(seats := w.db.seats[s := w.db.seats[s].(status := Booked)],
                   reservations := w.db.reservations[r := w.db.reservations[r].(status := Confirmed)],
                   payments := w.db.payments + [Payment(Some(1), AmountOf(ev), ev.reference, Successful, ev.id)],
                   tickets := w.db.tickets[t := Ticket(r, 1, 3, s, false, false)],
                   processed := w.db.processed + {ev.id}))
  }

  /** An order of one seat, held and unpaid, and the report of its payment. */
  predicate Payable(w: World, ev: WebhookEvent, i: nat, s: Id, r: Id, t: Id) {
    && i < |w.orders| && w.orders[i] == Order(1, 5, 3, [r], [s])
    && ev.kind == CollectionSucceeded && ev.metadata == OrderMetadata(w.orders[i]) && ev.id !in w.db.processed
    && r in w.db.reservations && w.db.reservations[r].seat == s && w.db.reservations[r].status == Pending
    && s in w.db.seats && w.db.seats[s].status == Reserved
    && !Ticketed(w.db, r) && !SeatTicketed(w.db, s) && t !in w.db.tickets
  }

  lemma OneRowOrder(w: World, ev: WebhookEvent, i: nat, s: Id, r: Id, t: Id)
    requires Inv(w) && i < |w.orders| && w.orders[i] == Order(1, 5, 3, [r], [s]) &&
            ev.metadata == OrderMetadata(w.orders[i])
    requires t !in w.db.tickets
    ensures HasOrderIds(ev.metadata) && Echoes(w.orders, ev.metadata)
    ensures ReservationsIn(w.db, ev.metadata) == {r} && SeatsIn(w.db, ev.metadata) == {s}
    ensures Enabled(w, Deliver(ev, [r], [t])) && RowsFor(w.db, ev, [r], [t])
  {
    MetadataRoundTrip(w.db, w.orders[i]);
    assert Elements([r]) == {r} && Elements([s]) == {s};
  }

  lemma OneRowRecorded(db: Db, ev: WebhookEvent, s: Id, r: Id)
    requires ReservationsIn(db, ev.metadata) == {r} && SeatsIn(db, ev.metadata) == {s}
    requires r in db.reservations && db.reservations[r].status == Pending && s in db.seats &&
            db.seats[s].status == Reserved
    ensures RecordPayment(db, ev).reservations == db.reservations[r := db.reservations[r].(status := Confirmed)]
    ensures RecordPayment(db, ev).seats == db.seats[s := db.seats[s].(status := Booked)]
  {
  }

  lemma OrderPaid(w: World, ev: WebhookEvent, i: nat, s: Id, r: Id, t: Id)
    requires Inv(w) && Payable(w, ev, i, s, r, t)
    ensures Enabled(w, Deliver(ev, [r], [t])) && Apply(w, Deliver(ev, [r], [t])) == PaidFor(w, ev, s, r, t)
  {
    OneRowOrder(w, ev, i, s, r, t);
    OneRowRecorded(w.db, ev, s, r);
    EchoedParties(w, ev.metadata);
    SingleRowPayment(w.db, ev, r, t);
  }

  const ORDER_2 := Order(1, 5, 3, [18], [17])

  /** Two seats for sale, then two orders of user 1, then both paid. */
  function TwoSeats(): World { Shop(map[7 := Seat(5, Available), 17 := Seat(5, Available)], map[], [], 0) }
  function TwoOrders(): World { Bought(Bought(TwoSeats(), 7, 8), 17, 18) }
  function TwoPaid(first: WebhookEvent, second: WebhookEvent): World {
    PaidFor(PaidFor(TwoOrders(), first, 7, 8, 20), second, 17, 18, 21)
  }

  function Ordering(rest: seq<Step>): seq<Step> {
    [BulkCreate(5, {7, 17})] + ([CHECKOUT] + ([Step.Checkout(1, 5, [17], map[18 := 17], [18])] + rest))
  }

  lemma OrderedTwice(rest: seq<Step>, end: World)
    requires RunsTo(TwoOrders(), rest, end)
    ensures RunsTo(EmptyShop(), Ordering(rest), end)
  {
    var a, b := TwoSeats(), Bought(TwoSeats(), 7, 8);
    assert Apply(EmptyShop(), BulkCreate(5, {7, 17})) == a;
    SeatBought(a, 7, 8);
    SeatBought(b, 17, 18);
    RunStep(b, Step.Checkout(1, 5, [17], map[18 := 17], [18]), TwoOrders(), rest);
    RunStep(a, CHECKOUT, b, [Step.Checkout(1, 5, [17], map[18 := 17], [18])] + rest);
    RunStep(EmptyShop(), BulkCreate(5, {7, 17}), a, [CHECKOUT] +
        ([Step.Checkout(1, 5, [17], map[18 := 17], [18])] + rest));
  }

  lemma TwoOrdersInv()
    ensures Inv(TwoOrders()) && TwoOrders().orders == [ORDER, ORDER_2]
  {
    OrderedTwice([], TwoOrders());
    InitialInv(EmptyShop());
    InvariantOverRuns(EmptyShop(), Ordering([]));
  }

  lemma PaidTwice(first: WebhookEvent, second: WebhookEvent)
    requires first.kind == second.kind == CollectionSucceeded && first.id != second.id
    requires first.metadata == OrderMetadata(ORDER) && second.metadata == OrderMetadata(ORDER_2)
    ensures RunsTo(TwoOrders(), [Deliver(first, [8], [20])] +
            ([Deliver(second, [18], [21])] + []), TwoPaid(first, second))
  {
    var a := TwoOrders();
    var b := PaidFor(a, first, 7, 8, 20);
    TwoOrdersInv();
    OrderPaid(a, first, 0, 7, 8, 20);
    StepKeeps(a, Deliver(first, [8], [20]));
    OrderPaid(b, second, 1, 17, 18, 21);
    RunStep(b, Deliver(second, [18], [21]), TwoPaid(first, second), []);
    RunStep(a, Deliver(first, [8], [20]), b, [Deliver(second, [18], [21])] + []);
  }

  /**
   * The input: one user pays for two orders and is refunded the first; the payment of the second is returned as well,
   * while its reservation stays CONFIRMED and its ticket valid.
   */
  lemma RefundReturnsBoth(first: WebhookEvent, second: WebhookEvent, refund: WebhookEvent)
    requires first.kind == second.kind == CollectionSucceeded && refund.kind == RefundPaid
    requires first.id != second.id && refund.id !in {first.id, second.id}
    requires first.metadata == refund.metadata == OrderMetadata(ORDER) && second.metadata == OrderMetadata(ORDER_2)
    ensures RunsTo(EmptyShop(), Ordering([Deliver(first, [8], [20])] + ([Deliver(second, [18], [21])] + [])),
            TwoPaid(first, second))
    ensures Enabled(TwoPaid(first, second), Deliver(refund, [8], [30]))
    ensures var after := Apply(TwoPaid(first, second), Deliver(refund, [8], [30])).db;
            && |after.payments| == 2 && after.payments[1].idempotencyKey == second.id &&
                after.payments[1].status == Returned
            && 18 in after.reservations && after.reservations[18].status == Confirmed
            && TicketOf(after.tickets, 21, 18) && !after.tickets[21].isRefunded
  {
    TwoPaidReached(first, second);
    FirstRefundable(first, second, refund);
    BothReturned(first, second, refund);
  }

  lemma BothReturned(first: WebhookEvent, second: WebhookEvent, refund: WebhookEvent)
    requires Inv(TwoPaid(first, second)) && Enabled(TwoPaid(first, second), Deliver(refund, [8], [30]))
    requires refund.kind == RefundPaid && refund.id !in {first.id, second.id}
    requires refund.metadata == OrderMetadata(ORDER) && HasOrderIds(refund.metadata)
    requires ReservationsIn(TwoPaid(first, second).db, refund.metadata) == {8}
    ensures var after := Apply(TwoPaid(first, second), Deliver(refund, [8], [30])).db;
            && |after.payments| == 2 && after.payments[1].idempotencyKey == second.id &&
                after.payments[1].status == Returned
            && 18 in after.reservations && after.reservations[18].status == Confirmed
            && TicketOf(after.tickets, 21, 18) && !after.tickets[21].isRefunded
  {
    SecondReturned(TwoPaid(first, second), refund);
  }

  lemma FirstRefundable(first: WebhookEvent, second: WebhookEvent, refund: WebhookEvent)
    requires Inv(TwoPaid(first, second)) && refund.metadata == OrderMetadata(ORDER)
    ensures Enabled(TwoPaid(first, second), Deliver(refund, [8], [30]))
    ensures ReservationsIn(TwoPaid(first, second).db, refund.metadata) == {8} && HasOrderIds(refund.metadata)
  {
    TwoOrdersInv();
    assert TwoPaid(first, second).orders == TwoOrders().orders;
    OneRowOrder(TwoPaid(first, second), refund, 0, 7, 8, 30);
  }

  lemma TwoPaidReached(first: WebhookEvent, second: WebhookEvent)
    requires first.kind == second.kind == CollectionSucceeded && first.id != second.id
    requires first.metadata == OrderMetadata(ORDER) && second.metadata == OrderMetadata(ORDER_2)
    ensures RunsTo(EmptyShop(), Ordering([Deliver(first, [8], [20])] + ([Deliver(second, [18], [21])] + [])),
            TwoPaid(first, second))
    ensures Inv(TwoPaid(first, second))
  {
    var pays := [Deliver(first, [8], [20])] + ([Deliver(second, [18], [21])] + []);
    PaidTwice(first, second);
    OrderedTwice(pays, TwoPaid(first, second));
    InitialInv(EmptyShop());
    InvariantOverRuns(EmptyShop(), Ordering(pays));
  }

  lemma SecondReturned(w: World, refund: WebhookEvent)
    requires Inv(w) && refund.kind == RefundPaid && Effective(w.db, refund) && Enabled(w, Deliver(refund, [8], [30]))
    requires ReservationsIn(w.db, refund.metadata) == {8} && refund.metadata.userId == Some(1)
    requires |w.db.payments| == 2 && w.db.payments[1].user == Some(1) && w.db.payments[1].status == Successful
    requires 18 in w.db.reservations && w.db.reservations[18].status == Confirmed
    requires TicketOf(w.db.tickets, 21, 18) && !w.db.tickets[21].isRefunded
    ensures var after := Apply(w, Deliver(refund, [8], [30])).db;
            && |after.payments| == 2 && after.payments[1] == w.db.payments[1].(status := Returned)
            && 18 in after.reservations && after.reservations[18].status == Confirmed
            && TicketOf(after.tickets, 21, 18) && !after.tickets[21].isRefunded
  {
    StepPayments(w, Deliver(refund, [8], [30]));
    RefundSparesOthers(w, Deliver(refund, [8], [30]), 18);
  }
}
