/** Tickets follow payments: who has one, in what state, and what may pass the door. */
module Tickets {
  import opened Text
  import opened Tables
  import opened Booking
  import opened Protocol
  import opened Agreement
  import opened Invariant

  predicate TicketOf(tickets: map<Id, Ticket>, t: Id, r: Id) {
    t in tickets && tickets[t].reservation == r
  }

  ghost predicate HasTicket(tickets: map<Id, Ticket>, r: Id) {
    exists t :: TicketOf(tickets, t, r)
  }

  /** Every ticket belongs to a reservation of some order and to its seat. */
  ghost predicate TicketsFounded(tickets: map<Id, Ticket>, rows: map<Id, Reservation>, orders: seq<Order>) {
    forall t :: t in tickets ==>
      && tickets[t].reservation in rows
      && tickets[t].seat == rows[tickets[t].reservation].seat
      && Ordered(orders, tickets[t].reservation)
  }

  ghost predicate Ordered(orders: seq<Order>, r: Id) {
    exists i :: 0 <= i < |orders| && r in orders[i].reservations
  }

  ghost predicate OneTicketEach(tickets: map<Id, Ticket>) {
    forall r, t, u :: TicketOf(tickets, t, r) && TicketOf(tickets, u, r) ==> t == u
  }

  /** No ticket before payment; a confirmed reservation has a valid ticket, a refunded one a refunded ticket. */
  ghost predicate TicketsFollowStatus(tickets: map<Id, Ticket>, rows: map<Id, Reservation>) {
    && (forall r :: r in rows && rows[r].status == Pending ==> !HasTicket(tickets, r))
    && (forall r :: r in rows && rows[r].status in {Confirmed, Refunded} ==> HasTicket(tickets, r))
    && (forall r, t :: r in rows && TicketOf(tickets, t, r) && rows[r].status == Confirmed ==> !tickets[t].isRefunded)
    && (forall r, t :: r in rows && TicketOf(tickets, t, r) && rows[r].status == Refunded ==> tickets[t].isRefunded)
  }

  /** An order's tickets are issued together. */
  ghost predicate WholeOrders(tickets: map<Id, Ticket>, orders: seq<Order>) {
    forall i, r, q ::
      0 <= i < |orders| && r in orders[i].reservations && q in orders[i].reservations && HasTicket(tickets, r) ==>
      HasTicket(tickets, q)
  }

  ghost predicate TicketTables(tickets: map<Id, Ticket>, rows: map<Id, Reservation>, orders: seq<Order>) {
    TicketsFounded(tickets, rows, orders) && OneTicketEach(tickets) && WholeOrders(tickets, orders)
  }

  /** What holds even while a payment has committed and its tickets are still to be written. */
  ghost predicate TicketBase(w: World) {
    Inv(w) && TicketTables(w.db.tickets, w.db.reservations, w.orders)
  }

  ghost predicate TicketInv(w: World) {
    TicketBase(w) && TicketsFollowStatus(w.db.tickets, w.db.reservations)
  }

  // ---------------------------------------------------------------- issuing

  /** The tickets are the old ones and one for each row. */
  ghost predicate IssuedAll(db: Db, after: map<Id, Ticket>, user: Id, event: Id, rows: seq<Id>, ids: seq<Id>)
    requires |rows| == |ids|
    requires forall r :: r in rows ==> r in db.reservations
  {
    && (forall t :: t in after <==> t in db.tickets || t in ids)
    && (forall t :: t in db.tickets ==> after[t] == db.tickets[t])
    && (forall i ::
          0 <= i < |rows| ==>
          ids[i] in after && after[ids[i]] == Ticket(rows[i], user, event, db.reservations[rows[i]].seat, false, false))
  }

  /** Generation for rows without tickets, whose seats have none and differ, runs to the end of the loop. */
  lemma {:induction false} IssueToAll(db: Db, user: Id, event: Id, rows: seq<Id>, ids: seq<Id>)
    requires |rows| == |ids| && NoDuplicates(rows) && NoDuplicates(ids)
    requires forall r :: r in rows ==> r in db.reservations
    requires forall t :: t in ids ==> t !in db.tickets
    requires forall r, t :: r in rows && t in db.tickets ==>
      db.tickets[t].reservation != r && db.tickets[t].seat != db.reservations[r].seat
    requires OneHolder(db.reservations)
    ensures IssuedAll(db, IssueTickets(db, user, event, rows, ids).tickets, user, event, rows, ids)
    decreases |rows|
  {
    if rows != [] {
      var r, id := rows[0], ids[0];
      var seat := db.reservations[r].seat;
      assert r in rows && id in ids;
      var next := db.(tickets := db.tickets[id := Ticket(r, user, event, seat, false, false)]);
      forall q, t | q in rows[1..] && t in next.tickets
        ensures next.tickets[t].reservation != q && next.tickets[t].seat != next.reservations[q].seat
      {
        assert q in rows && q != r;
        if next.reservations[q].seat == seat {
          assert Holds(db.reservations, q, seat) && Holds(db.reservations, r, seat);
        }
      }
      IssueToAll(next, user, event, rows[1..], ids[1..]);
      assert !Ticketed(db, r) && !SeatTicketed(db, seat) && id !in db.tickets;
      var after := IssueTickets(db, user, event, rows, ids).tickets;
      assert after == IssueTickets(next, user, event, rows[1..], ids[1..]).tickets;
      forall t ensures t in after <==> t in db.tickets || t in ids {
        assert ids == [id] + ids[1..];
      }
      forall i | 0 <= i < |rows|
        ensures ids[i] in after &&
                after[ids[i]] == Ticket(rows[i], user, event, db.reservations[rows[i]].seat, false, false)
      {
        if i > 0 { assert ids[i] == ids[1..][i - 1] && rows[i] == rows[1..][i - 1]; }
      }
    }
  }

  // ---------------------------------------------------------------- payments

  /** After a payment of the listed reservations all of them have a ticket; the new tickets are valid. */
  ghost predicate OrderTicketed(before: map<Id, Ticket>, after: map<Id, Ticket>, rows: map<Id, Reservation>,
                                rs: set<Id>) {
    && (forall t :: t in before ==> t in after && after[t] == before[t])
    && (forall t :: t in after && t !in before ==>
          && after[t].reservation in rs && after[t].reservation in rows
          && after[t].seat == rows[after[t].reservation].seat
          && !HasTicket(before, after[t].reservation) && !after[t].isRefunded && !after[t].isUsed)
    && (forall r :: r in rs ==> HasTicket(after, r))
  }

  lemma IssuedAllTickets(db: Db, after: map<Id, Ticket>, user: Id, event: Id, rows: seq<Id>, ids: seq<Id>)
    requires |rows| == |ids| && NoDuplicates(rows) && NoDuplicates(ids)
    requires forall r :: r in rows ==> r in db.reservations && !HasTicket(db.tickets, r)
    requires forall t :: t in ids ==> t !in db.tickets
    requires OneTicketEach(db.tickets) && IssuedAll(db, after, user, event, rows, ids)
    ensures OrderTicketed(db.tickets, after, db.reservations, Elements(rows)) && OneTicketEach(after)
  {
    forall t | t in after && t !in db.tickets
      ensures after[t].reservation in rows && after[t].seat == db.reservations[after[t].reservation].seat
      ensures !HasTicket(db.tickets, after[t].reservation) && !after[t].isRefunded && !after[t].isUsed
    {
      var i :| 0 <= i < |ids| && ids[i] == t;
      assert rows[i] in rows;
    }
    forall r | r in rows ensures HasTicket(after, r) {
      var i :| 0 <= i < |rows| && rows[i] == r;
      assert TicketOf(after, ids[i], r);
    }
    forall r, t, u | TicketOf(after, t, r) && TicketOf(after, u, r) ensures t == u {
      if t in db.tickets { assert TicketOf(db.tickets, t, r); }
      if u in db.tickets { assert TicketOf(db.tickets, u, r); }
      if t !in db.tickets && u !in db.tickets {
        var i :| 0 <= i < |ids| && ids[i] == t;
        var j :| 0 <= j < |ids| && ids[j] == u;
        assert rows[i] == r && rows[j] == r;
      }
    }
  }

  /** No seat of an unticketed reservation carries another reservation's ticket. */
  lemma UnticketedSeatsFree(tickets: map<Id, Ticket>, rows: map<Id, Reservation>, orders: seq<Order>, r: Id, t: Id)
    requires TicketsFounded(tickets, rows, orders) && OneHolder(rows)
    requires r in rows && !HasTicket(tickets, r) && t in tickets
    ensures tickets[t].reservation != r && tickets[t].seat != rows[r].seat
  {
    var q := tickets[t].reservation;
    assert TicketOf(tickets, t, q);
    assert Holds(rows, q, tickets[t].seat) && Holds(rows, r, rows[r].seat);
  }

  /** Reservations that are all ticketed or all not end up ticketed: by this payment's tickets or by earlier ones. */
  lemma PaidOrderTicketed(db: Db, orders: seq<Order>, user: Id, event: Id, rows: seq<Id>, ids: seq<Id>)
    requires TicketsFounded(db.tickets, db.reservations, orders) && OneHolder(db.reservations) &&
            OneTicketEach(db.tickets)
    requires rows != [] && |rows| == |ids| && NoDuplicates(rows) && NoDuplicates(ids) &&
            (forall t :: t in ids ==> t !in db.tickets)
    requires forall r :: r in rows ==> r in db.reservations
    requires forall r :: r in rows ==> (HasTicket(db.tickets, r) <==> HasTicket(db.tickets, rows[0]))
    ensures var after := IssueTickets(db, user, event, rows, ids).tickets;
            OrderTicketed(db.tickets, after, db.reservations, Elements(rows)) && OneTicketEach(after)
  {
    assert rows[0] in rows;
    if HasTicket(db.tickets, rows[0]) {
      var t :| TicketOf(db.tickets, t, rows[0]);
      assert Ticketed(db, rows[0]);
    } else {
      forall r, t | r in rows && t in db.tickets
        ensures db.tickets[t].reservation != r && db.tickets[t].seat != db.reservations[r].seat
      {
        UnticketedSeatsFree(db.tickets, db.reservations, orders, r, t);
      }
      IssueToAll(db, user, event, rows, ids);
      IssuedAllTickets(db, IssueTickets(db, user, event, rows, ids).tickets, user, event, rows, ids);
    }
  }

  /** The rows found for an echoed order are its reservations: all ticketed or none. */
  lemma OrderRows(w: World, m: Metadata, rows: seq<Id>)
    requires Inv(w) && WholeOrders(w.db.tickets, w.orders)
    requires Echoes(w.orders, m) && HasOrderIds(m) && Elements(rows) == ReservationsIn(w.db, m)
    ensures rows != [] && forall r :: r in rows ==> r in w.db.reservations
    ensures forall r :: r in rows ==> (HasTicket(w.db.tickets, r) <==> HasTicket(w.db.tickets, rows[0]))
  {
    EchoedLists(w, m);
    var i := OrderIndex(w.orders, m);
    assert w.orders[i].reservations[0] in Elements(rows);
    assert rows[0] in Elements(rows);
    forall r | r in rows ensures r in w.orders[i].reservations { assert r in Elements(rows); }
  }

  /** The tickets after an effective payment event, for any state whose payment can be recorded. */
  lemma PaymentIssues(db: Db, ev: WebhookEvent, rows: seq<Id>, ids: seq<Id>)
    requires RowsFor(db, ev, rows, ids) && HasOrderIds(ev.metadata) && PaymentInsertable(db, ev)
    requires ev.metadata.userId.Some? && ev.metadata.userId.value in db.users
    requires ev.metadata.eventId.Some? && ev.metadata.eventId.value in db.events
    ensures forall r :: r in rows ==> r in RecordPayment(db, ev).reservations
    ensures OnPaymentSucceeded(db, ev, rows, ids).tickets ==
            IssueTickets(RecordPayment(db, ev), ev.metadata.userId.value, ev.metadata.eventId.value, rows, ids).tickets
  {
    assert forall r :: r in rows ==> r in Elements(rows);
  }

  lemma RecordedPaymentRows(db: Db, ev: WebhookEvent)
    requires OneHolder(db.reservations)
    ensures OneHolder(RecordPayment(db, ev).reservations)
    ensures RecordPayment(db, ev).reservations.Keys == db.reservations.Keys &&
            RecordPayment(db, ev).tickets == db.tickets
    ensures forall r :: r in db.reservations ==> RecordPayment(db, ev).reservations[r].seat == db.reservations[r].seat
  {
    var after := RecordPayment(db, ev).reservations;
    assert forall r, s :: Holds(after, r, s) <==> Holds(db.reservations, r, s);
  }

  lemma EchoedParties(w: World, m: Metadata)
    ensures Inv(w) && Echoes(w.orders, m) && HasOrderIds(m) ==>
            m.userId.Some? && m.userId.value in w.db.users && m.eventId.Some? && m.eventId.value in w.db.events
  {
  }

  /** A payment tickets its whole order, whatever the statuses of the order's reservations, late payments included. */
  lemma PaymentTicketsOrder(w: World, ev: WebhookEvent, rows: seq<Id>, ids: seq<Id>)
    requires TicketBase(w) && Enabled(w, Deliver(ev, rows, ids))
    requires Effective(w.db, ev) && ev.kind == CollectionSucceeded
    ensures var after := HandleWebhook(w.db, ev, rows, ids).tickets;
            OrderTicketed(w.db.tickets, after, w.db.reservations, ReservationsIn(w.db, ev.metadata)) &&
            OneTicketEach(after)
  {
    var marked := w.db.(processed := w.db.processed + {ev.id});
    EchoedParties(w, ev.metadata);
    PaymentIssues(marked, ev, rows, ids);
    OrderRows(w, ev.metadata, rows);
    RecordedPaymentRows(marked, ev);
    var paid := RecordPayment(marked, ev);
    PaidOrderTicketed(paid, w.orders, ev.metadata.userId.value, ev.metadata.eventId.value, rows, ids);
  }

  /** The payment of an order of one reservation without a ticket, as a change of the tables. */
  lemma SingleRowPayment(db: Db, ev: WebhookEvent, r: Id, t: Id)
    requires RowsFor(db, ev, [r], [t]) && r in db.reservations
    requires ev.id !in db.processed && ev.kind == CollectionSucceeded && HasOrderIds(ev.metadata) &&
            PaymentInsertable(db, ev)
    requires ev.metadata.userId.Some? && ev.metadata.userId.value in db.users
    requires ev.metadata.eventId.Some? && ev.metadata.eventId.value in db.events
    requires !Ticketed(db, r) && !SeatTicketed(db, db.reservations[r].seat)
    ensures var ticket := Ticket(r, ev.metadata.userId.value, ev.metadata.eventId.value, db.reservations[r].seat,
            false, false);
            HandleWebhook(db, ev, [r], [t]) ==
              RecordPayment(db, ev).(processed := db.processed + {ev.id}, tickets := db.tickets[t := ticket])
  {
    var marked := db.(processed := db.processed + {ev.id});
    PaymentIssues(marked, ev, [r], [t]);
    var paid := RecordPayment(marked, ev);
    assert !Ticketed(paid, r) && !SeatTicketed(paid, paid.reservations[r].seat) && t in [t];
    IssueTicketsFrame(paid, ev.metadata.userId.value, ev.metadata.eventId.value, [r], [t]);
  }

  /** How a payment changes who has a ticket. */
  lemma PaidHasTicket(before: map<Id, Ticket>, after: map<Id, Ticket>, rows: map<Id, Reservation>, rs: set<Id>, r: Id)
    requires OrderTicketed(before, after, rows, rs)
    ensures HasTicket(after, r) <==> HasTicket(before, r) || r in rs
  {
    if t :| TicketOf(before, t, r) { assert TicketOf(after, t, r); }
    if t :| TicketOf(after, t, r) { if t in before { assert TicketOf(before, t, r); } }
  }

  lemma PaidFollowsStatus(before: map<Id, Ticket>, after: map<Id, Ticket>, rows: map<Id, Reservation>, rs: set<Id>)
    requires TicketsFollowStatus(before, rows) && OrderTicketed(before, after, rows, rs)
    ensures TicketsFollowStatus(after, UpdateReservations(rows, rs, Pending, Confirmed))
  {
    forall r
        ensures HasTicket(after, r) <==> HasTicket(before, r) || r in rs { PaidHasTicket(before, after, rows, rs, r); }
    forall r, t | TicketOf(after, t, r) && t in before ensures TicketOf(before, t, r) && HasTicket(before, r) {
      assert TicketOf(before, t, r);
    }
  }

  lemma PaidFounded(before: map<Id, Ticket>, after: map<Id, Ticket>, rows: map<Id, Reservation>, rs: set<Id>,
                    orders: seq<Order>)
    requires TicketsFounded(before, rows, orders) && OrderTicketed(before, after, rows, rs)
    requires forall r :: r in rs ==> Ordered(orders, r)
    ensures TicketsFounded(after, UpdateReservations(rows, rs, Pending, Confirmed), orders)
  {
  }

  lemma PaidWholeOrders(before: map<Id, Ticket>, after: map<Id, Ticket>, rows: map<Id, Reservation>,
                        orders: seq<Order>, i: nat)
    requires i < |orders| && OrderTicketed(before, after, rows, Elements(orders[i].reservations)) &&
            WholeOrders(before, orders)
    requires forall j, r :: 0 <= j < |orders| && j != i && r in orders[i].reservations ==> r !in orders[j].reservations
    ensures WholeOrders(after, orders)
  {
    var rs := Elements(orders[i].reservations);
    forall r
        ensures HasTicket(after, r) <==> HasTicket(before, r) || r in rs { PaidHasTicket(before, after, rows, rs, r); }
  }

  lemma PaymentKeepsTickets(w: World, st: Step)
    requires TicketBase(w) && st.Deliver? && Enabled(w, st) && Effective(w.db, st.ev) &&
            st.ev.kind == CollectionSucceeded
    ensures var after := Apply(w, st);
            && TicketTables(after.db.tickets, after.db.reservations, after.orders)
            && (TicketInv(w) ==> TicketsFollowStatus(after.db.tickets, after.db.reservations))
  {
    var m, before, rows := st.ev.metadata, w.db.tickets, w.db.reservations;
    var after := HandleWebhook(w.db, st.ev, st.rows, st.ids);
    PaymentTicketsOrder(w, st.ev, st.rows, st.ids);
    DeliverSettles(w, st.ev, st.rows, st.ids);
    EchoedLists(w, m);
    var i, rs := OrderIndex(w.orders, m), ReservationsIn(w.db, m);
    forall r | r in rs ensures Ordered(w.orders, r) { assert r in w.orders[i].reservations; }
    if TicketInv(w) { PaidFollowsStatus(before, after.tickets, rows, rs); }
    PaidFounded(before, after.tickets, rows, rs, w.orders);
    PaidWholeOrders(before, after.tickets, rows, w.orders, i);
  }

  // ---------------------------------------------------------------- refunds

  lemma RefundFollowsStatus(tickets: map<Id, Ticket>, rows: map<Id, Reservation>, rs: set<Id>)
    requires TicketsFollowStatus(tickets, rows)
    ensures TicketsFollowStatus(RefundTickets(tickets, rs), UpdateReservations(rows, rs, Confirmed, Refunded))
  {
    var after := RefundTickets(tickets, rs);
    assert forall r, t :: TicketOf(after, t, r) <==> TicketOf(tickets, t, r);
    forall r ensures HasTicket(after, r) <==> HasTicket(tickets, r) {}
    forall r, t | TicketOf(after, t, r) ensures TicketOf(tickets, t, r) {}
  }

  lemma RefundWholeOrders(tickets: map<Id, Ticket>, orders: seq<Order>, rs: set<Id>)
    requires OneTicketEach(tickets) && WholeOrders(tickets, orders)
    ensures OneTicketEach(RefundTickets(tickets, rs)) && WholeOrders(RefundTickets(tickets, rs), orders)
  {
    forall r, t ensures TicketOf(RefundTickets(tickets, rs), t, r) <==> TicketOf(tickets, t, r) {}
    forall r ensures HasTicket(RefundTickets(tickets, rs), r) <==> HasTicket(tickets, r) {}
  }

  lemma RefundFounded(tickets: map<Id, Ticket>, rows: map<Id, Reservation>, orders: seq<Order>, rs: set<Id>)
    ensures TicketsFounded(tickets, rows, orders) ==>
            TicketsFounded(RefundTickets(tickets, rs), UpdateReservations(rows, rs, Confirmed, Refunded), orders)
  {
  }

  lemma RefundKeepsTickets(w: World, st: Step)
    requires TicketBase(w) && st.Deliver? && Enabled(w, st) && Effective(w.db, st.ev) && st.ev.kind == RefundPaid
    ensures var after := Apply(w, st);
            && TicketTables(after.db.tickets, after.db.reservations, after.orders)
            && (TicketInv(w) ==> TicketsFollowStatus(after.db.tickets, after.db.reservations))
  {
    var rs := ReservationsIn(w.db, st.ev.metadata);
    if TicketInv(w) { RefundFollowsStatus(w.db.tickets, w.db.reservations, rs); }
    RefundWholeOrders(w.db.tickets, w.orders, rs);
    RefundFounded(w.db.tickets, w.db.reservations, w.orders, rs);
  }

  // ---------------------------------------------------------------- all other steps

  /** Tickets change at most their use flag. */
  ghost predicate SameTickets(before: map<Id, Ticket>, after: map<Id, Ticket>) {
    && after.Keys == before.Keys
    && forall t :: t in before ==> after[t] == before[t].(isUsed := after[t].isUsed)
  }

  /** Holds may be released, and new reservations are pending. */
  ghost predicate QuietRows(before: map<Id, Reservation>, after: map<Id, Reservation>) {
    && (forall r :: r in before ==> r in after && after[r].seat == before[r].seat)
    && (forall r ::
          r in before && after[r].status != before[r].status ==>
          before[r].status == Pending && after[r].status == Expired)
    && (forall r :: r in after && r !in before ==> after[r].status == Pending)
  }

  /** New orders are about new reservations. */
  ghost predicate GrownOrders(before: seq<Order>, after: seq<Order>, rows: map<Id, Reservation>) {
    && |before| <= |after| && (forall i :: 0 <= i < |before| ==> after[i] == before[i])
    && (forall i, r :: |before| <= i < |after| && r in after[i].reservations ==> r !in rows)
  }

  lemma SameTicketOf(before: map<Id, Ticket>, after: map<Id, Ticket>)
    ensures SameTickets(before, after) ==> forall r, t :: TicketOf(after, t, r) <==> TicketOf(before, t, r)
    ensures SameTickets(before, after) ==> forall r :: HasTicket(after, r) <==> HasTicket(before, r)
  {
  }

  lemma QuietFollowsStatus(before: map<Id, Ticket>, after: map<Id, Ticket>, rows: map<Id, Reservation>,
                           rows': map<Id, Reservation>)
    requires TicketsFollowStatus(before, rows) && SameTickets(before, after) && QuietRows(rows, rows')
    requires forall r :: HasTicket(before, r) ==> r in rows
    ensures TicketsFollowStatus(after, rows')
  {
    SameTicketOf(before, after);
    forall r, t | TicketOf(after, t, r) ensures TicketOf(before, t, r) && HasTicket(before, r) {
      assert TicketOf(before, t, r);
    }
  }

  lemma QuietWholeOrders(before: map<Id, Ticket>, after: map<Id, Ticket>, rows: map<Id, Reservation>,
                         orders: seq<Order>, orders': seq<Order>)
    requires OneTicketEach(before) && WholeOrders(before, orders) && SameTickets(before, after)
    requires GrownOrders(orders, orders', rows) && forall r :: HasTicket(before, r) ==> r in rows
    ensures OneTicketEach(after) && WholeOrders(after, orders')
  {
    SameTicketOf(before, after);
    forall i, r, q | 0 <= i < |orders'| && r in orders'[i].reservations && q in orders'[i].reservations &&
        HasTicket(after, r)
      ensures HasTicket(after, q)
    {
      assert HasTicket(before, r);
      if i < |orders| { assert orders'[i] == orders[i]; }
    }
  }

  lemma QuietTables(before: map<Id, Ticket>, after: map<Id, Ticket>, rows: map<Id, Reservation>,
                    rows': map<Id, Reservation>,
                    orders: seq<Order>, orders': seq<Order>)
    requires TicketTables(before, rows, orders)
    requires SameTickets(before, after) && QuietRows(rows, rows') && GrownOrders(orders, orders', rows)
    ensures TicketTables(after, rows', orders')
    ensures TicketsFollowStatus(before, rows) ==> TicketsFollowStatus(after, rows')
  {
    if TicketsFollowStatus(before, rows) { QuietFollowsStatus(before, after, rows, rows'); }
    QuietWholeOrders(before, after, rows, orders, orders');
  }

  ghost predicate QuietStep(w: World, after: World) {
    && SameTickets(w.db.tickets, after.db.tickets) && QuietRows(w.db.reservations, after.db.reservations)
    && GrownOrders(w.orders, after.orders, w.db.reservations)
  }

  lemma HoldsAreQuiet(db: Db, user: Id, seatIds: set<Id>, holds: map<Id, Id>, now: int)
    requires FreshHolds(db, seatIds, holds)
    ensures QuietRows(db.reservations, InsertHolds(db, user, holds, now).reservations)
    ensures QuietRows(db.reservations, db.reservations)
  {
  }

  lemma CheckoutIsQuiet(w: World, st: Step)
    requires st.Checkout? && Enabled(w, st)
    ensures QuietStep(w, Apply(w, st))
  {
    CheckoutEither(w.db, st.user, st.section, st.chosen, st.holds, st.listing, w.now);
    HoldsAreQuiet(w.db, st.user, Elements(st.chosen), st.holds, w.now);
    assert forall r :: r in st.listing ==> r in Elements(st.listing);
  }

  lemma ReleaseIsQuiet(db: Db, ev: WebhookEvent, rows: seq<Id>, ids: seq<Id>)
    requires RowsFor(db, ev, rows, ids)
    requires !(Effective(db, ev) && (ev.kind == CollectionSucceeded || ev.kind == RefundPaid))
    ensures var after := HandleWebhook(db, ev, rows, ids);
            after.tickets == db.tickets && QuietRows(db.reservations, after.reservations)
  {
  }

  predicate IsPayment(w: World, st: Step) {
    st.Deliver? && Effective(w.db, st.ev) && st.ev.kind == CollectionSucceeded
  }

  predicate IsRefund(w: World, st: Step) {
    st.Deliver? && Effective(w.db, st.ev) && st.ev.kind == RefundPaid
  }

  /** Every step but a payment and a refund. */
  lemma OtherStepIsQuiet(w: World, st: Step)
    requires Inv(w) && Enabled(w, st) && !IsPayment(w, st) && !IsRefund(w, st)
    ensures QuietStep(w, Apply(w, st))
  {
    if st.Checkout? { CheckoutIsQuiet(w, st); }
    else if st.Deliver? { ReleaseIsQuiet(w.db, st.ev, st.rows, st.ids); }
  }

  lemma TicketStep(w: World, st: Step)
    requires TicketBase(w) && Enabled(w, st)
    ensures TicketBase(Apply(w, st))
    ensures TicketInv(w) ==> TicketInv(Apply(w, st))
  {
    StepKeeps(w, st);
    if IsPayment(w, st) { PaymentKeepsTickets(w, st); }
    else if IsRefund(w, st) { RefundKeepsTickets(w, st); }
    else {
      OtherStepIsQuiet(w, st);
      QuietTables(w.db.tickets, Apply(w, st).db.tickets, w.db.reservations, Apply(w, st).db.reservations, w.orders,
          Apply(w, st).orders);
    }
  }

  /** From a fresh installation the ticket invariant holds after any run. */
  lemma {:induction false} TicketInvOverRuns(w: World, steps: seq<Step>)
    requires TicketBase(w) && ValidRun(w, steps)
    ensures TicketBase(Run(w, steps))
    ensures TicketInv(w) ==> TicketInv(Run(w, steps))
    decreases |steps|
  {
    if steps != [] {
      TicketStep(w, steps[0]);
      TicketInvOverRuns(Apply(w, steps[0]), steps[1..]);
    }
  }

  /** A seat has at most one ticket. */
  lemma SeatTicketUnique(w: World, t: Id, u: Id)
    requires TicketBase(w) && t in w.db.tickets && u in w.db.tickets && w.db.tickets[t].seat == w.db.tickets[u].seat
    ensures t == u
  {
    var r, q := w.db.tickets[t].reservation, w.db.tickets[u].reservation;
    assert Holds(w.db.reservations, r, w.db.tickets[t].seat) && Holds(w.db.reservations, q, w.db.tickets[t].seat);
    assert TicketOf(w.db.tickets, t, r) && TicketOf(w.db.tickets, u, r);
  }

  /**
   * Every confirmed reservation has exactly one ticket and it is valid, every refunded one exactly one and it is
   * refunded, no pending one has any, and no seat ever has two.
   */
  lemma TicketsMatchReservations(w: World, steps: seq<Step>, r: Id)
    requires Initial(w) && ValidRun(w, steps) && r in Run(w, steps).db.reservations
    ensures var db := Run(w, steps).db;
            && (db.reservations[r].status == Pending ==> !HasTicket(db.tickets, r))
            && (db.reservations[r].status in {Confirmed, Refunded} ==>
                exists t :: TicketOf(db.tickets, t, r) && (forall u :: TicketOf(db.tickets, u, r) ==> u == t)
                            && db.tickets[t].isRefunded == (db.reservations[r].status == Refunded))
    ensures var db := Run(w, steps).db;
            forall t, u :: t in db.tickets && u in db.tickets && db.tickets[t].seat == db.tickets[u].seat ==> t == u
  {
    InitialInv(w);
    TicketInvOverRuns(w, steps);
    var db := Run(w, steps).db;
    forall t, u | t in db.tickets && u in db.tickets && db.tickets[t].seat == db.tickets[u].seat ensures t == u {
      SeatTicketUnique(Run(w, steps), t, u);
    }
  }
}
