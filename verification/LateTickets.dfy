/**
 * Tickets over a reservation's whole history: who gets one too late, when it is refunded, and what a refund can miss.
 */
module LateTickets {
  import opened Tables
  import opened Booking
  import opened Protocol
  import opened Agreement
  import opened Invariant
  import opened SeatGrants
  import opened Outcomes
  import opened Sweeps
  import opened Tickets

  ghost predicate RefundedTicket(tickets: map<Id, Ticket>, r: Id) {
    exists t :: TicketOf(tickets, t, r) && tickets[t].isRefunded
  }

  // ---------------------------------------------------------------- one step

  lemma TicketsAfterRefund(before: map<Id, Ticket>, rs: set<Id>, r: Id)
    ensures HasTicket(RefundTickets(before, rs), r) <==> HasTicket(before, r)
    ensures RefundedTicket(RefundTickets(before, rs), r) <==>
            RefundedTicket(before, r) || (HasTicket(before, r) && r in rs)
  {
    var after := RefundTickets(before, rs);
    forall t ensures TicketOf(after, t, r) <==> TicketOf(before, t, r) {}
    if t :| TicketOf(before, t, r) { assert TicketOf(after, t, r); }
  }

  lemma TicketsAfterQuiet(before: map<Id, Ticket>, after: map<Id, Ticket>, r: Id)
    requires SameTickets(before, after)
    ensures HasTicket(after, r) <==> HasTicket(before, r)
    ensures RefundedTicket(after, r) <==> RefundedTicket(before, r)
  {
    SameTicketOf(before, after);
  }

  lemma QuietSignal(w: World, st: Step, r: Id)
    ensures SignalTo(w, st, r) == Paid <==> IsPayment(w, st) && r in ReservationsIn(w.db, st.ev.metadata)
    ensures SignalTo(w, st, r) == RefundSettled <==> IsRefund(w, st) && r in ReservationsIn(w.db, st.ev.metadata)
  {
  }

  lemma PaymentAdvances(w: World, st: Step, r: Id)
    requires TicketBase(w) && Enabled(w, st) && IsPayment(w, st)
    ensures HasTicket(Apply(w, st).db.tickets, r) <==>
            HasTicket(w.db.tickets, r) || r in ReservationsIn(w.db, st.ev.metadata)
    ensures RefundedTicket(Apply(w, st).db.tickets, r) <==> RefundedTicket(w.db.tickets, r)
  {
    var rs := ReservationsIn(w.db, st.ev.metadata);
    PaymentTicketsOrder(w, st.ev, st.rows, st.ids);
    PaidHasTicket(w.db.tickets, Apply(w, st).db.tickets, w.db.reservations, rs, r);
  }

  lemma RefundAdvances(w: World, st: Step, r: Id)
    requires Enabled(w, st) && IsRefund(w, st)
    ensures HasTicket(Apply(w, st).db.tickets, r) <==> HasTicket(w.db.tickets, r)
    ensures RefundedTicket(Apply(w, st).db.tickets, r) <==>
            RefundedTicket(w.db.tickets, r) || (HasTicket(w.db.tickets, r) && r in ReservationsIn(w.db, st.ev.metadata))
  {
    TicketsAfterRefund(w.db.tickets, ReservationsIn(w.db, st.ev.metadata), r);
  }

  /**
   * A payment signal gives the reservation its ticket, a refund signal refunds the ticket it has; nothing else does
   * either.
   */
  lemma TicketAdvances(w: World, st: Step, r: Id)
    requires TicketBase(w) && Enabled(w, st)
    ensures HasTicket(Apply(w, st).db.tickets, r) <==> HasTicket(w.db.tickets, r) || SignalTo(w, st, r) == Paid
    ensures RefundedTicket(Apply(w, st).db.tickets, r) <==>
            RefundedTicket(w.db.tickets, r) || (HasTicket(w.db.tickets, r) && SignalTo(w, st, r) == RefundSettled)
  {
    QuietSignal(w, st, r);
    if IsPayment(w, st) {
      PaymentAdvances(w, st, r);
    } else if IsRefund(w, st) {
      RefundAdvances(w, st, r);
    } else {
      OtherStepIsQuiet(w, st);
      TicketsAfterQuiet(w.db.tickets, Apply(w, st).db.tickets, r);
    }
  }

  // ---------------------------------------------------------------- whole runs

  ghost predicate PaidThenRefunded(sigs: seq<Signal>) {
    exists j, k :: 0 <= j < k < |sigs| && sigs[j] == Paid && sigs[k] == RefundSettled
  }

  lemma PaidThenRefundedTail(sigs: seq<Signal>)
    requires sigs != []
    ensures PaidThenRefunded(sigs) <==> (sigs[0] == Paid && RefundSettled in sigs[1..]) || PaidThenRefunded(sigs[1..])
  {
    var tail := sigs[1..];
    if j, k :| 0 <= j < k < |sigs| && sigs[j] == Paid && sigs[k] == RefundSettled {
      assert tail[k - 1] == RefundSettled;
      assert j > 0 ==> tail[j - 1] == Paid;
    }
    if k :| 0 <= k < |tail| && sigs[0] == Paid && tail[k] == RefundSettled { assert sigs[k + 1] == RefundSettled; }
    if j, k :| 0 <= j < k < |tail| && tail[j] == Paid && tail[k] == RefundSettled {
      assert sigs[j + 1] == Paid && sigs[k + 1] == RefundSettled;
    }
  }

  /**
   * The fate of a reservation's ticket: there is one once a payment came, and it is refunded once a refund came after.
   */
  lemma {:induction false} TicketFate(w: World, steps: seq<Step>, r: Id)
    requires TicketBase(w) && ValidRun(w, steps)
    ensures HasTicket(Run(w, steps).db.tickets, r) <==> HasTicket(w.db.tickets, r) || Paid in Signals(w, steps, r)
    ensures RefundedTicket(Run(w, steps).db.tickets, r) <==>
            || RefundedTicket(w.db.tickets, r)
            || (HasTicket(w.db.tickets, r) && RefundSettled in Signals(w, steps, r))
            || PaidThenRefunded(Signals(w, steps, r))
    decreases |steps|
  {
    var sigs := Signals(w, steps, r);
    if steps != [] {
      var next := Apply(w, steps[0]);
      TicketStep(w, steps[0]);
      TicketAdvances(w, steps[0], r);
      TicketFate(next, steps[1..], r);
      assert sigs[1..] == Signals(next, steps[1..], r) && sigs[0] == SignalTo(w, steps[0], r);
      assert forall g :: g in sigs <==> g == sigs[0] || g in sigs[1..];
      PaidThenRefundedTail(sigs);
    }
  }

  /** A reservation made during the run has the status its signals say, from its first moment as a pending hold. */
  lemma {:induction false} StatusOverHistory(w: World, steps: seq<Step>, r: Id)
    requires Inv(w) && ValidRun(w, steps) && r !in w.db.reservations && r in Run(w, steps).db.reservations
    ensures Run(w, steps).db.reservations[r].status == Outcome(Signals(w, steps, r))
    decreases |steps|
  {
    var sigs := Signals(w, steps, r);
    var next := Apply(w, steps[0]);
    StepKeeps(w, steps[0]);
    assert sigs[0] == Quiet && sigs[1..] == Signals(next, steps[1..], r);
    OutcomeOfTail(sigs);
    if r in next.db.reservations {
      HoldStartsNow(w, steps[0], r);
      StatusAfterRun(next, steps[1..], r);
    } else {
      StatusOverHistory(next, steps[1..], r);
    }
  }

  /** Released first, and paid after all. */
  ghost predicate PaidLate(sigs: seq<Signal>) {
    exists i: nat, j: nat :: FirstSettled(sigs, i) && sigs[i] == Released && i < j < |sigs| && sigs[j] == Paid
  }

  /**
   * From a fresh installation, for every reservation: it is EXPIRED and has a ticket exactly when a payment came after
   * its release, and that ticket is refunded exactly when a refund came after a payment.
   */
  lemma LateTicketIff(w: World, steps: seq<Step>, r: Id)
    requires Initial(w) && ValidRun(w, steps) && r in Run(w, steps).db.reservations
    ensures var db := Run(w, steps).db;
            && (db.reservations[r].status == Expired && HasTicket(db.tickets, r) <==> PaidLate(Signals(w, steps, r)))
            && (HasTicket(db.tickets, r) <==> Paid in Signals(w, steps, r))
            && (RefundedTicket(db.tickets, r) <==> PaidThenRefunded(Signals(w, steps, r)))
  {
    InitialInv(w);
    StatusOverHistory(w, steps, r);
    TicketFate(w, steps, r);
  }

  /** Every ticket belongs to a reservation paid in time if and only if no reservation was paid after its release. */
  lemma TicketsPaidInTimeIff(w: World, steps: seq<Step>)
    requires Initial(w) && ValidRun(w, steps)
    ensures var db := Run(w, steps).db;
            (forall r ::
                r in db.reservations && HasTicket(db.tickets, r) ==>
                db.reservations[r].status in {Confirmed, Refunded}) <==>
            (forall r :: r in db.reservations ==> !PaidLate(Signals(w, steps, r)))
  {
    var db := Run(w, steps).db;
    InitialInv(w);
    TicketInvOverRuns(w, steps);
    forall r | r in db.reservations
      ensures PaidLate(Signals(w, steps, r)) <==>
              HasTicket(db.tickets, r) && db.reservations[r].status !in {Confirmed, Refunded}
    {
      LateTicketIff(w, steps, r);
    }
  }

  // ---------------------------------------------------------------- the input

  /** The released shop after a payment of its order. */
  function LateShop(ev: WebhookEvent, used: bool): World {
    var w := ReleasedShop();
    w.(db := w.db.(payments := [Payment(Some(1), AmountOf(ev), ev.reference, Successful, ev.id)],
                   tickets := map[20 := Ticket(8, 1, 3, 7, used, false)], processed := {ev.id}))
  }

  lemma OrderInReleasedShop()
    ensures Inv(ReleasedShop())
    ensures var (db, m) := (ReleasedShop().db, OrderMetadata(ORDER));
            HasOrderIds(m) && ReservationsIn(db, m) == {8} && SeatsIn(db, m) == {7}
  {
    ReleasedShopInv();
    assert ReleasedShop().orders[0] == ORDER;
    MetadataRoundTrip(ReleasedShop().db, ORDER);
    OneHold(8);
  }

  lemma LatePaymentEnabled(ev: WebhookEvent)
    requires ev.metadata == OrderMetadata(ORDER)
    ensures Enabled(ReleasedShop(), Deliver(ev, [8], [20])) && RowsFor(ReleasedShop().db, ev, [8], [20])
  {
    OrderInReleasedShop();
    OneHold(8);
    assert OrderMetadata(ReleasedShop().orders[0]) == ev.metadata;
  }

  /** A payment finds nothing to confirm in the released shop: it only records the money. */
  lemma LatePaymentRecorded(ev: WebhookEvent)
    requires ev.metadata == OrderMetadata(ORDER)
    ensures RecordPayment(ReleasedShop().db, ev) ==
            ReleasedShop().db.(payments := [Payment(Some(1), AmountOf(ev), ev.reference, Successful, ev.id)])
  {
    OrderInReleasedShop();
    var db := ReleasedShop().db;
    assert UpdateReservations(db.reservations, {8}, Pending, Confirmed) == db.reservations;
    assert UpdateSeats(db.seats, {7}, Reserved, Booked) == db.seats;
  }

  lemma PaidAfterRelease(ev: WebhookEvent)
    requires ev.kind == CollectionSucceeded && ev.metadata == OrderMetadata(ORDER)
    ensures Enabled(ReleasedShop(), Deliver(ev, [8], [20]))
    ensures Apply(ReleasedShop(), Deliver(ev, [8], [20])) == LateShop(ev, false)
  {
    OrderInReleasedShop();
    LatePaymentEnabled(ev);
    LatePaymentRecorded(ev);
    SingleRowPayment(ReleasedShop().db, ev, 8, 20);
  }

  lemma LateTicketAdmitted(ev: WebhookEvent)
    ensures ValidateTicket(LateShop(ev, false).db, Signed(20), 4) == (LateShop(ev, true).db, Ok(false))
  {
    assert LateShop(ev, false).db.tickets[20 := Ticket(8, 1, 3, 7, true, false)] == LateShop(ev, true).db.tickets;
  }

  /**
   * The input: a hold expires, its late payment is collected, and the EXPIRED reservation's unrefunded ticket is
   * admitted at the door while its seat shows AVAILABLE.
   */
  lemma LatePaymentIsAdmitted(ev: WebhookEvent)
    requires ev.kind == CollectionSucceeded && ev.metadata == OrderMetadata(ORDER)
    ensures RunsTo(EmptyShop(), ReleasedRun(), ReleasedShop())
    ensures RunsTo(ReleasedShop(), [Deliver(ev, [8], [20])] + ([Scan(Signed(20), 4)] + []), LateShop(ev, true))
    ensures ValidateTicket(LateShop(ev, false).db, Signed(20), 4).1 == Ok(false)
    ensures LateShop(ev, true).db.reservations[8].status == Expired &&
            LateShop(ev, true).db.seats[7].status == Available
    ensures TicketOf(LateShop(ev, true).db.tickets, 20, 8) && !LateShop(ev, true).db.tickets[20].isRefunded
  {
    ReleasedRunReaches();
    PaidAfterRelease(ev);
    LateTicketAdmitted(ev);
    RunStep(LateShop(ev, false), Scan(Signed(20), 4), LateShop(ev, true), []);
    RunStep(ReleasedShop(), Deliver(ev, [8], [20]), LateShop(ev, false), [Scan(Signed(20), 4)] + []);
  }
}
