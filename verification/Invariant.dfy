/** Every step of every run keeps the agreement of seats and reservations, and the orders known to the provider. */
module Invariant {
  import opened Text
  import opened Tables
  import opened Booking
  import opened Protocol
  import opened Agreement

  // ---------------------------------------------------------------- parsing the echoed metadata

  /** A printed identifier list is read back as the same identifiers. */
  lemma {:induction false} IdListRoundTrip(ids: seq<Id>)
    requires ids != []
    ensures Join(IdTexts(ids)) != "" && Split(Join(IdTexts(ids))) == IdTexts(ids)
    ensures forall id: Id :: IdText(id) in Split(Join(IdTexts(ids))) <==> id in ids
  {
    var texts := IdTexts(ids);
    forall t | t in texts ensures CommaFree(t) {
      var i :| 0 <= i < |ids| && texts[i] == t;
      assert forall c :: c in IdText(ids[i]) ==> IsDigit(c);
    }
    SplitUndoesJoin(texts);
    forall id: Id ensures IdText(id) in texts <==> id in ids {
      if i :| 0 <= i < |ids| && ids[i] == id { assert texts[i] == IdText(id); }
      if i :| 0 <= i < |texts| && texts[i] == IdText(id) { DecimalInjective(ids[i], id); }
    }
  }

  /** The rows selected by an order's metadata are the order's reservations and exactly their seats. */
  lemma MetadataRoundTrip(db: Db, o: Order)
    requires Agree(db) && OrderOk(db, o)
    ensures HasOrderIds(OrderMetadata(o))
    ensures ReservationsIn(db, OrderMetadata(o)) == Elements(o.reservations)
    ensures SeatsIn(db, OrderMetadata(o)) == Elements(o.seats)
  {
    IdListRoundTrip(o.reservations);
    IdListRoundTrip(o.seats);
    forall s | s in o.seats ensures s in db.seats {
      assert s in Elements(o.seats);
      var r :| r in Elements(o.reservations) && r in db.reservations && db.reservations[r].seat == s;
      assert Holds(db.reservations, r, s);
    }
  }

  function OrderIndex(orders: seq<Order>, m: Metadata): (i: nat)
    requires Echoes(orders, m) && HasOrderIds(m)
    ensures i < |orders| && OrderMetadata(orders[i]) == m
  {
    if OrderMetadata(orders[0]) == m then 0
    else
      assert Echoes(orders[1..], m) by {
        var j :| 0 <= j < |orders| && OrderMetadata(orders[j]) == m;
        assert orders[1..][j - 1] == orders[j];
      }
      1 + OrderIndex(orders[1..], m)
  }

  /** Echoed order metadata lists an order's reservations and exactly their seats. */
  lemma EchoedLists(w: World, m: Metadata)
    requires Inv(w) && Echoes(w.orders, m) && HasOrderIds(m)
    ensures var o := w.orders[OrderIndex(w.orders, m)];
            OrderOk(w.db, o) && ReservationsIn(w.db, m) == Elements(o.reservations) &&
            SeatsIn(w.db, m) == Elements(o.seats)
    ensures SeatsIn(w.db, m) == SeatsOf(w.db, ReservationsIn(w.db, m))
  {
    MetadataRoundTrip(w.db, w.orders[OrderIndex(w.orders, m)]);
  }

  // ---------------------------------------------------------------- deliveries

  /** Issuing tickets touches the ticket table only. */
  lemma {:induction false} IssueTicketsFrame(db: Db, user: Id, event: Id, rows: seq<Id>, ids: seq<Id>)
    requires |rows| == |ids|
    requires forall r :: r in rows ==> r in db.reservations
    ensures IssueTickets(db, user, event, rows, ids) == db.(tickets := IssueTickets(db, user, event, rows, ids).tickets)
    decreases |rows|
  {
    if rows != [] {
      var seat := db.reservations[rows[0]].seat;
      if !(Ticketed(db, rows[0]) || SeatTicketed(db, seat) || ids[0] in db.tickets) {
        IssueTicketsFrame(db.(tickets := db.tickets[ids[0] := Ticket(rows[0], user, event, seat, false, false)]),
                          user, event, rows[1..], ids[1..]);
      }
    }
  }

  /** The statuses between which an event of this kind moves the reservations of its order. */
  function Transition(kind: EventKind): Option<(ReservationStatus, ReservationStatus)> {
    match kind
    case CollectionSucceeded => Some((Pending, Confirmed))
    case CollectionFailed => Some((Pending, Expired))
    case CheckoutExpired => Some((Pending, Expired))
    case RefundPaid => Some((Confirmed, Refunded))
    case _ => None
  }

  predicate Effective(db: Db, ev: WebhookEvent) {
    ev.id !in db.processed && HasOrderIds(ev.metadata) && Transition(ev.kind).Some?
  }

  /** A payment that can be recorded is recorded whole; ticket generation afterwards adds tickets only. */
  lemma PaidFields(db: Db, ev: WebhookEvent, rows: seq<Id>, ids: seq<Id>)
    requires RowsFor(db, ev, rows, ids) && HasOrderIds(ev.metadata) && PaymentInsertable(db, ev)
    ensures OnPaymentSucceeded(db, ev, rows, ids) ==
            RecordPayment(db, ev).(tickets := OnPaymentSucceeded(db, ev, rows, ids).tickets)
  {
    assert forall r :: r in rows ==> r in Elements(rows);
    if ev.metadata.userId.Some? && ev.metadata.eventId.Some? {
      IssueTicketsFrame(RecordPayment(db, ev), ev.metadata.userId.value, ev.metadata.eventId.value, rows, ids);
    }
  }

  /** The payment table after an effective event. */
  function PaymentsAfter(db: Db, ev: WebhookEvent): seq<Payment> {
    if ev.kind == CollectionSucceeded then
      db.payments + [Payment(ev.metadata.userId, AmountOf(ev), ev.reference, Successful, ev.id)]
    else if ev.kind == RefundPaid && ev.metadata.userId.Some? then RefundPayments(db.payments, ev.metadata.userId.value)
    else db.payments
  }

  lemma HandlerSettles(db: Db, ev: WebhookEvent, rows: seq<Id>, ids: seq<Id>)
    requires RowsFor(db, ev, rows, ids)
    requires ev.kind == CollectionSucceeded ==> PaymentInsertable(db, ev)
    ensures var after := HandleEvent(db, ev, rows, ids);
            if HasOrderIds(ev.metadata) && Transition(ev.kind).Some? then
              after == Settle(db, ReservationsIn(db, ev.metadata), SeatsIn(db, ev.metadata),
                              Transition(ev.kind).value.0, Transition(ev.kind).value.1)
                .(payments := PaymentsAfter(db, ev), tickets := after.tickets)
            else after == db
  {
    if HasOrderIds(ev.metadata) {
      match ev.kind
      case CollectionSucceeded => PaidFields(db, ev, rows, ids);
      case CollectionFailed =>
      case CheckoutExpired =>
      case RefundPaid =>
      case RefundCreated =>
      case Unhandled =>
    }
  }

  /**
   * A delivery settles the order's lists once, records its payment effect, and marks the event; or it only marks it.
   */
  lemma DeliverSettles(w: World, ev: WebhookEvent, rows: seq<Id>, ids: seq<Id>)
    requires Inv(w) && Echoes(w.orders, ev.metadata) && RowsFor(w.db, ev, rows, ids)
    ensures var after := HandleWebhook(w.db, ev, rows, ids);
            && after.processed == w.db.processed + {ev.id}
            && (if Effective(w.db, ev) then
                  after == Settle(w.db, ReservationsIn(w.db, ev.metadata), SeatsIn(w.db, ev.metadata),
                                  Transition(ev.kind).value.0, Transition(ev.kind).value.1)
                    .(processed := after.processed, payments := PaymentsAfter(w.db, ev), tickets := after.tickets)
                else after == w.db.(processed := after.processed))
  {
    var marked := w.db.(processed := w.db.processed + {ev.id});
    if ev.id in w.db.processed {
      assert marked.processed == w.db.processed;
    } else {
      if ev.kind == CollectionSucceeded && HasOrderIds(ev.metadata) { EchoedLists(w, ev.metadata); }
      if HasOrderIds(ev.metadata) {
        HandlerSettles(marked, ev, rows, ids);
      }
    }
  }

  // ---------------------------------------------------------------- each step

  lemma ReserveSucceeds(db: Db, user: Id, seatIds: set<Id>, holds: map<Id, Id>, now: int)
    ensures CreateReservations(db, user, seatIds, holds, now).1.Ok? <==>
            && (forall s :: s in seatIds ==> s in db.seats && db.seats[s].status == Available && OnSale(db, s))
            && HoldsInsertable(db, user, seatIds)
  {
  }

  lemma ReserveKeeps(db: Db, user: Id, seatIds: set<Id>, holds: map<Id, Id>, now: int)
    requires Agree(db) && PaymentsMarked(db) && FreshHolds(db, seatIds, holds)
    ensures var after := CreateReservations(db, user, seatIds, holds, now).0;
            Agree(after) && PaymentsMarked(after) && Keeps(db, after)
  {
    if CreateReservations(db, user, seatIds, holds, now).1.Ok? {
      ReserveSucceeds(db, user, seatIds, holds, now);
      InsertHoldsAgrees(db, user, seatIds, holds, now);
    }
  }

  lemma OrdersKept(w: World, after: World)
    ensures OrdersOk(w) && Keeps(w.db, after.db) && after.orders == w.orders ==> OrdersOk(after)
  {
  }

  lemma SettleStep(w: World, after: Db, rs: set<Id>, from: ReservationStatus, to: ReservationStatus)
    requires Inv(w) && (from == Pending || from == Confirmed)
    requires var settled := Settle(w.db, rs, SeatsOf(w.db, rs), from, to);
             after.reservations == settled.reservations && after.seats == settled.seats
    requires after.users == w.db.users && after.events == w.db.events
    ensures Agree(after) && Keeps(w.db, after) && OrdersOk(w.(db := after))
  {
    OwnSeatsMatch(w.db, rs, from);
    SettleKeepsAgreement(w.db, rs, SeatsOf(w.db, rs), from, to);
    assert Keeps(w.db, after);
    OrdersKept(w, w.(db := after));
  }

  /** The seats and reservations after a delivery. */
  lemma DeliverRows(w: World, ev: WebhookEvent, rows: seq<Id>, ids: seq<Id>)
    requires Inv(w) && Echoes(w.orders, ev.metadata) && RowsFor(w.db, ev, rows, ids)
    ensures var after := HandleWebhook(w.db, ev, rows, ids);
            && after.users == w.db.users && after.events == w.db.events
            && (if Effective(w.db, ev) then
                  var rs := ReservationsIn(w.db, ev.metadata);
                  var settled := Settle(w.db, rs, SeatsOf(w.db, rs), Transition(ev.kind).value.0,
                      Transition(ev.kind).value.1);
                  after.reservations == settled.reservations && after.seats == settled.seats
                else after.reservations == w.db.reservations && after.seats == w.db.seats)
  {
    DeliverSettles(w, ev, rows, ids);
    if Effective(w.db, ev) { EchoedLists(w, ev.metadata); }
  }

  lemma DeliverMarks(w: World, ev: WebhookEvent, rows: seq<Id>, ids: seq<Id>)
    requires Inv(w) && Echoes(w.orders, ev.metadata) && RowsFor(w.db, ev, rows, ids)
    ensures PaymentsMarked(HandleWebhook(w.db, ev, rows, ids))
  {
    DeliverSettles(w, ev, rows, ids);
  }

  lemma DeliverKeeps(w: World, ev: WebhookEvent, rows: seq<Id>, ids: seq<Id>)
    requires Inv(w) && Enabled(w, Deliver(ev, rows, ids))
    ensures Inv(Apply(w, Deliver(ev, rows, ids))) && Keeps(w.db, Apply(w, Deliver(ev, rows, ids)).db)
  {
    var after := HandleWebhook(w.db, ev, rows, ids);
    DeliverRows(w, ev, rows, ids);
    DeliverMarks(w, ev, rows, ids);
    if Effective(w.db, ev) {
      SettleStep(w, after, ReservationsIn(w.db, ev.metadata), Transition(ev.kind).value.0, Transition(ev.kind).value.1);
    } else {
      OrdersKept(w, w.(db := after));
    }
  }

  lemma CheckedSeats(db: Db, section: Id, chosen: seq<Id>)
    requires CheckoutCheck(db, section, chosen) == None && forall s :: s in chosen ==> s in db.seats
    ensures NoDuplicates(chosen)
  {
    DistinctCount(chosen);
    assert FoundSeats(db, chosen) == Elements(chosen);
  }

  /** A checkout that succeeds has reserved exactly the chosen, distinct, seats. */
  lemma CheckoutReserves(db: Db, user: Id, section: Id, chosen: seq<Id>, holds: map<Id, Id>, listing: seq<Id>, now: int)
    requires CreateCheckout(db, user, section, chosen, holds, listing, now).1.Ok?
    ensures NoDuplicates(chosen) && listing != []
    ensures CreateReservations(db, user, Elements(chosen), holds, now).1.Ok?
    ensures user in db.users && section in db.sections && db.sections[section].event in db.events
    ensures CreateCheckout(db, user, section, chosen, holds, listing, now) ==
            (InsertHolds(db, user, holds, now), Ok(Order(user, section, db.sections[section].event, listing, chosen)))
  {
    ReserveSucceeds(db, user, Elements(chosen), holds, now);
    CheckedSeats(db, section, chosen);
  }

  /** The order minted by a successful checkout. */
  lemma CheckoutMints(db: Db, user: Id, section: Id, chosen: seq<Id>, holds: map<Id, Id>, listing: seq<Id>, now: int)
    requires FreshHolds(db, Elements(chosen), holds) && NoDuplicates(listing) && Elements(listing) == holds.Keys
    requires CreateCheckout(db, user, section, chosen, holds, listing, now).1.Ok?
    ensures var (after, minted) := CreateCheckout(db, user, section, chosen, holds, listing, now);
            OrderOk(after, minted.value) && minted.value.reservations == listing && minted.value.seats == chosen
  {
    CheckoutReserves(db, user, section, chosen, holds, listing, now);
    var after := InsertHolds(db, user, holds, now);
    DistinctCount(chosen);
    DistinctCount(listing);
    SameSize(holds);
    forall r | r in listing ensures r in after.reservations && after.reservations[r].user == user {
      assert r in Elements(listing);
    }
  }

  /** An injective map has as many values as keys. */
  lemma {:induction false} SameSize(m: map<Id, Id>)
    requires forall r, q :: r in m && q in m && m[r] == m[q] ==> r == q
    ensures |m.Keys| == |m.Values|
    decreases |m|
  {
    if r :| r in m {
      var rest := m - {r};
      SameSize(rest);
      assert m.Keys == rest.Keys + {r};
      assert m.Values == rest.Values + {m[r]} by {
        forall v ensures v in m.Values <==> v in rest.Values + {m[r]} {
          if v in m.Values && v != m[r] {
            var q :| q in m && m[q] == v;
            assert q in rest && rest[q] == v;
          }
        }
      }
      assert m[r] !in rest.Values;
    } else {
      assert m.Keys == {} && m.Values == {};
    }
  }

  lemma CheckoutOrders(w: World, after: World, o: Order, holds: map<Id, Id>)
    requires OrdersOk(w) && Keeps(w.db, after.db) && after.orders == w.orders + [o] && OrderOk(after.db, o)
    requires Elements(o.reservations) == holds.Keys && forall r :: r in holds ==> r !in w.db.reservations
    ensures OrdersOk(after)
  {
  }

  lemma MintingKeeps(w: World, st: Step)
    requires Inv(w) && st.Checkout? && Enabled(w, st)
    requires CreateCheckout(w.db, st.user, st.section, st.chosen, st.holds, st.listing, w.now).1.Ok?
    requires Keeps(w.db, Apply(w, st).db)
    ensures OrdersOk(Apply(w, st))
  {
    CheckoutReserves(w.db, st.user, st.section, st.chosen, st.holds, st.listing, w.now);
    CheckoutMints(w.db, st.user, st.section, st.chosen, st.holds, st.listing, w.now);
    CheckoutOrders(w, Apply(w, st), Order(st.user, st.section, w.db.sections[st.section].event, st.listing, st.chosen),
        st.holds);
  }

  /** A checkout inserts its holds, after the reservation guards have passed, or changes nothing. */
  lemma CheckoutEither(db: Db, user: Id, section: Id, chosen: seq<Id>, holds: map<Id, Id>, listing: seq<Id>, now: int)
    ensures var (after, minted) := CreateCheckout(db, user, section, chosen, holds, listing, now);
            && (after == db ||
                (after == InsertHolds(db, user, holds, now) &&
                    CreateReservations(db, user, Elements(chosen), holds, now).1.Ok?))
            && (minted.Ok? ==> minted.value.reservations == listing)
  {
  }

  lemma CheckoutTables(db: Db, user: Id, section: Id, chosen: seq<Id>, holds: map<Id, Id>, listing: seq<Id>, now: int)
    requires Agree(db) && PaymentsMarked(db) && FreshHolds(db, Elements(chosen), holds)
    ensures var after := CreateCheckout(db, user, section, chosen, holds, listing, now).0;
            Agree(after) && PaymentsMarked(after) && Keeps(db, after)
  {
    CheckoutEither(db, user, section, chosen, holds, listing, now);
    var after := CreateCheckout(db, user, section, chosen, holds, listing, now).0;
    if after != db {
      ReserveKeeps(db, user, Elements(chosen), holds, now);
      assert after == CreateReservations(db, user, Elements(chosen), holds, now).0;
    }
  }

  lemma CheckoutKeeps(w: World, st: Step)
    requires Inv(w) && st.Checkout? && Enabled(w, st)
    ensures Inv(Apply(w, st)) && Keeps(w.db, Apply(w, st).db)
  {
    CheckoutTables(w.db, st.user, st.section, st.chosen, st.holds, st.listing, w.now);
    if CreateCheckout(w.db, st.user, st.section, st.chosen, st.holds, st.listing, w.now).1.Ok? {
      MintingKeeps(w, st);
    } else {
      OrdersKept(w, Apply(w, st));
    }
  }

  lemma AddKeeps(db: Db, section: Id, seats: set<Id>)
    requires Agree(db) && PaymentsMarked(db) && forall s :: s in seats ==> s !in db.seats
    ensures var after := AddSeats(db, section, seats); Agree(after) && PaymentsMarked(after) && Keeps(db, after)
  {
  }

  lemma ScanKeeps(db: Db, qr: QrPayload, scanner: Id)
    ensures Agree(db) && PaymentsMarked(db) ==>
            var after := ValidateTicket(db, qr, scanner).0; Agree(after) && PaymentsMarked(after) && Keeps(db, after)
  {
  }

  /** Every step keeps the invariant, and keeps every reservation's owner, seat and deadline. */
  lemma StepKeeps(w: World, st: Step)
    requires Inv(w) && Enabled(w, st)
    ensures Inv(Apply(w, st)) && Keeps(w.db, Apply(w, st).db)
  {
    var after := Apply(w, st);
    match st
    case Reserve(user, seatIds, holds) =>
      ReserveKeeps(w.db, user, seatIds, holds, w.now);
      OrdersKept(w, after);
    case Checkout(_, _, _, _, _) =>
      CheckoutKeeps(w, st);
    case Cancel(user, r) =>
      CancelIsSettle(w.db, user, r);
      if CancelReservation(w.db, user, r).1.Ok? { SettleStep(w, after.db, {r}, Pending, Expired); }
      else { OrdersKept(w, after); }
    case Sweep =>
      SettleStep(w, after.db, Overdue(w.db, w.now), Pending, Expired);
    case Deliver(ev, rows, ids) =>
      DeliverKeeps(w, ev, rows, ids);
    case Remove(seat) =>
      OrdersKept(w, after);
    case Catalogue(_, _, _) => OrdersKept(w, after);
    case BulkCreate(section, seats) =>
      AddKeeps(w.db, section, seats);
      OrdersKept(w, after);
    case Scan(qr, scanner) =>
      ScanKeeps(w.db, qr, scanner);
      OrdersKept(w, after);
    case Tick(_) =>
  }

  /** From a fresh installation, whatever happens in whatever order, the tables agree. */
  lemma {:induction false} InvariantOverRuns(w: World, steps: seq<Step>)
    requires Inv(w) && ValidRun(w, steps)
    ensures Inv(Run(w, steps)) && Keeps(w.db, Run(w, steps).db)
    decreases |steps|
  {
    if steps != [] {
      StepKeeps(w, steps[0]);
      InvariantOverRuns(Apply(w, steps[0]), steps[1..]);
    }
  }

  /** Orders known to the provider stay known. */
  lemma {:induction false} StillEchoed(w: World, steps: seq<Step>, m: Metadata)
    requires ValidRun(w, steps) && Echoes(w.orders, m)
    ensures Echoes(Run(w, steps).orders, m)
    decreases |steps|
  {
    if steps != [] {
      var next := Apply(w, steps[0]);
      if HasOrderIds(m) {
        var i :| 0 <= i < |w.orders| && OrderMetadata(w.orders[i]) == m;
        assert next.orders[i] == w.orders[i];
      }
      StillEchoed(next, steps[1..], m);
    }
  }

  lemma InitialInv(w: World)
    ensures Initial(w) ==> Inv(w)
  {
  }

  /** The agreement of both tables in every reachable state, seat by seat. */
  lemma TablesAlwaysAgree(w: World, steps: seq<Step>, s: Id)
    requires Initial(w) && ValidRun(w, steps)
    requires s in Run(w, steps).db.seats
    ensures var db := Run(w, steps).db;
            && (db.seats[s].status == Reserved <==>
                  exists r :: Holds(db.reservations, r, s) && db.reservations[r].status == Pending)
            && (db.seats[s].status == Booked <==>
                  exists r :: Holds(db.reservations, r, s) && db.reservations[r].status == Confirmed)
            && (db.seats[s].status == Available <==>
                forall r :: Holds(db.reservations, r, s) ==> db.reservations[r].status in {Expired, Refunded})
    ensures forall r, q ::
            Holds(Run(w, steps).db.reservations, r, s) && Holds(Run(w, steps).db.reservations, q, s) ==> r == q
  {
    InitialInv(w);
    InvariantOverRuns(w, steps);
    AgreementBySeat(Run(w, steps).db, s);
  }
}
