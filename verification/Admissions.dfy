/** Door scans over whole runs: who is let in, and how often. */
module Admissions {
  import opened Tables
  import opened Booking
  import opened Protocol
  import opened Invariant
  import opened Tickets

  /** The step is a scan that answers `alreadyUsed: false` for a ticket. */
  predicate Admits(w: World, st: Step, t: Id) {
    st.Scan? && st.qr == Signed(t) && ValidateTicket(w.db, st.qr, st.scanner).1 == Ok(false)
  }

  /** Ticket rows stay, with their columns; the use and refund flags are never cleared. */
  ghost predicate FlagsKept(before: map<Id, Ticket>, after: map<Id, Ticket>) {
    forall t :: t in before ==>
      && t in after && after[t] == before[t].(isUsed := after[t].isUsed, isRefunded := after[t].isRefunded)
      && (before[t].isUsed ==> after[t].isUsed) && (before[t].isRefunded ==> after[t].isRefunded)
  }

  /** Tickets become used only as `admitted` says; new ones start unused. */
  ghost predicate UsedBy(before: map<Id, Ticket>, after: map<Id, Ticket>, admitted: Option<Id>) {
    && (forall t :: t in before ==> t in after && (after[t].isUsed <==> before[t].isUsed || admitted == Some(t)))
    && (forall t :: t in after && t !in before ==> !after[t].isUsed && admitted != Some(t))
  }

  function AdmittedBy(w: World, st: Step): Option<Id> {
    if st.Scan? && ValidateTicket(w.db, st.qr, st.scanner).1 == Ok(false) then Some(st.qr.ticket) else None
  }

  lemma RefundFlags(before: map<Id, Ticket>, rs: set<Id>)
    ensures FlagsKept(before, RefundTickets(before, rs)) && UsedBy(before, RefundTickets(before, rs), None)
  {
  }

  /** Ticket tables that deliveries of the other kinds and requests other than scans leave alone. */
  lemma TicketsUntouched(w: World, st: Step)
    requires Enabled(w, st) && !st.Scan?
    requires !(st.Deliver? && Effective(w.db, st.ev) && (st.ev.kind == CollectionSucceeded || st.ev.kind == RefundPaid))
    ensures Apply(w, st).db.tickets == w.db.tickets
  {
  }

  lemma ScanFlags(db: Db, qr: QrPayload, scanner: Id)
    ensures var (after, r) := ValidateTicket(db, qr, scanner);
            FlagsKept(db.tickets, after.tickets) &&
            UsedBy(db.tickets, after.tickets, if r == Ok(false) then Some(qr.ticket) else None)
  {
  }

  lemma DeliveryFlags(w: World, ev: WebhookEvent, rows: seq<Id>, ids: seq<Id>)
    requires TicketInv(w) && Enabled(w, Deliver(ev, rows, ids)) && Effective(w.db, ev)
    requires ev.kind == CollectionSucceeded || ev.kind == RefundPaid
    ensures FlagsKept(w.db.tickets, HandleWebhook(w.db, ev, rows, ids).tickets)
    ensures UsedBy(w.db.tickets, HandleWebhook(w.db, ev, rows, ids).tickets, None)
  {
    var rs := ReservationsIn(w.db, ev.metadata);
    if ev.kind == CollectionSucceeded {
      PaymentTicketsOrder(w, ev, rows, ids);
    } else {
      RefundTicketsFrame(w.db, ev, rows, ids);
      RefundFlags(w.db.tickets, rs);
    }
  }

  lemma RefundTicketsFrame(db: Db, ev: WebhookEvent, rows: seq<Id>, ids: seq<Id>)
    ensures RowsFor(db, ev, rows, ids) && Effective(db, ev) && ev.kind == RefundPaid ==>
            HandleWebhook(db, ev, rows, ids).tickets == RefundTickets(db.tickets, ReservationsIn(db, ev.metadata))
  {
  }

  lemma StepFlags(w: World, st: Step)
    requires TicketInv(w) && Enabled(w, st)
    ensures FlagsKept(w.db.tickets, Apply(w, st).db.tickets)
    ensures UsedBy(w.db.tickets, Apply(w, st).db.tickets, AdmittedBy(w, st))
  {
    if st.Scan? { ScanFlags(w.db, st.qr, st.scanner); }
    else if st.Deliver? && Effective(w.db, st.ev) && (st.ev.kind == CollectionSucceeded || st.ev.kind == RefundPaid) {
      DeliveryFlags(w, st.ev, st.rows, st.ids);
    } else {
      TicketsUntouched(w, st);
    }
  }

  /** An admitted ticket was neither used nor refunded, and the scanner organizes its event. */
  lemma AdmittedTicketWasValid(w: World, st: Step, t: Id)
    requires Admits(w, st, t) && Enabled(w, st)
    ensures t in w.db.tickets && !w.db.tickets[t].isUsed && !w.db.tickets[t].isRefunded
    ensures w.db.tickets[t].event in w.db.events && w.db.events[w.db.tickets[t].event].organizer == st.scanner
    ensures t in Apply(w, st).db.tickets && Apply(w, st).db.tickets[t].isUsed
  {
  }

  lemma {:induction false} FlagsKeptOverRuns(w: World, steps: seq<Step>)
    requires TicketInv(w) && ValidRun(w, steps)
    ensures FlagsKept(w.db.tickets, Run(w, steps).db.tickets)
    decreases |steps|
  {
    if steps != [] {
      StepFlags(w, steps[0]);
      TicketStep(w, steps[0]);
      FlagsKeptOverRuns(Apply(w, steps[0]), steps[1..]);
    }
  }

  /** A ticket that was used or refunded is admitted by no later scan, whoever scans it. */
  lemma {:induction false} SpentTicketNeverAdmitted(w: World, steps: seq<Step>, t: Id, scanner: Id)
    requires TicketInv(w) && ValidRun(w, steps)
    requires t in w.db.tickets && (w.db.tickets[t].isUsed || w.db.tickets[t].isRefunded)
    ensures ValidateTicket(Run(w, steps).db, Signed(t), scanner).1 != Ok(false)
  {
    FlagsKeptOverRuns(w, steps);
  }

  ghost predicate SeatUsed(tickets: map<Id, Ticket>, s: Id) {
    exists t :: t in tickets && tickets[t].seat == s && tickets[t].isUsed
  }

  predicate AdmitsSeat(w: World, st: Step, s: Id) {
    var t := AdmittedBy(w, st);
    t.Some? && t.value in w.db.tickets && w.db.tickets[t.value].seat == s
  }

  /** How many scans of the run let somebody in on the seat. */
  function SeatAdmissions(w: World, steps: seq<Step>, s: Id): nat
    requires ValidRun(w, steps)
    decreases |steps|
  {
    if steps == [] then 0
    else (if AdmitsSeat(w, steps[0], s) then 1 else 0) + SeatAdmissions(Apply(w, steps[0]), steps[1..], s)
  }

  lemma SeatUsedAfter(before: map<Id, Ticket>, after: map<Id, Ticket>, admitted: Option<Id>, s: Id)
    requires FlagsKept(before, after) && UsedBy(before, after, admitted)
    ensures SeatUsed(after, s) <==>
            SeatUsed(before, s) || (admitted.Some? && admitted.value in before && before[admitted.value].seat == s)
  {
  }

  lemma AdmittedSeatWasUnused(w: World, st: Step, s: Id)
    requires TicketInv(w) && AdmitsSeat(w, st, s)
    ensures !SeatUsed(w.db.tickets, s)
  {
    var t := AdmittedBy(w, st).value;
    if u :| u in w.db.tickets && w.db.tickets[u].seat == s && w.db.tickets[u].isUsed {
      SeatTicketUnique(w, t, u);
    }
  }

  /** Each seat is admitted at most once, and exactly when it turns from unused to used during the run. */
  lemma {:induction false} SeatAdmittedOnce(w: World, steps: seq<Step>, s: Id)
    requires TicketInv(w) && ValidRun(w, steps)
    ensures SeatAdmissions(w, steps, s) ==
            (if SeatUsed(Run(w, steps).db.tickets, s) && !SeatUsed(w.db.tickets, s) then 1 else 0)
    ensures SeatUsed(w.db.tickets, s) ==> SeatUsed(Run(w, steps).db.tickets, s)
    decreases |steps|
  {
    if steps != [] {
      var next := Apply(w, steps[0]);
      StepFlags(w, steps[0]);
      TicketStep(w, steps[0]);
      SeatUsedAfter(w.db.tickets, next.db.tickets, AdmittedBy(w, steps[0]), s);
      if AdmitsSeat(w, steps[0], s) { AdmittedSeatWasUnused(w, steps[0], s); }
      SeatAdmittedOnce(next, steps[1..], s);
    }
  }
}
