/** The fate of a reservation over a whole run: the first settlement to reach it wins. */
module Outcomes {
  import opened Tables
  import opened Booking
  import opened Protocol
  import opened Agreement
  import opened Invariant

  /**
   * What a step says to a reservation: nothing, its order was paid, its hold was released, or its order was refunded.
   */
  datatype Signal = Quiet | Paid | Released | RefundSettled

  function EventSignal(db: Db, ev: WebhookEvent, r: Id): Signal {
    if ev.id in db.processed || !HasOrderIds(ev.metadata) || r !in ReservationsIn(db, ev.metadata) then Quiet
    else
      match ev.kind
      case CollectionSucceeded => Paid
      case CollectionFailed => Released
      case CheckoutExpired => Released
      case RefundPaid => RefundSettled
      case _ => Quiet
  }

  /** The signal depends on the order lists, owner, deadline and markers, never on the reservation's status. */
  function SignalTo(w: World, st: Step, r: Id): Signal {
    match st
    case Cancel(user, x) =>
      if x == r && r in w.db.reservations && w.db.reservations[r].user == user then Released else Quiet
    case Sweep =>
      if r in w.db.reservations && w.db.reservations[r].expiresAt < w.now then Released else Quiet
    case Deliver(ev, rows, ids) => EventSignal(w.db, ev, r)
    case _ => Quiet
  }

  function Signals(w: World, steps: seq<Step>, r: Id): (sigs: seq<Signal>)
    requires ValidRun(w, steps)
    ensures |sigs| == |steps|
    decreases |steps|
  {
    if steps == [] then [] else [SignalTo(w, steps[0], r)] + Signals(Apply(w, steps[0]), steps[1..], r)
  }

  /** The i-th signal is the first settlement of a pending reservation. */
  predicate FirstSettled(sigs: seq<Signal>, i: nat) {
    i < |sigs| && sigs[i] in {Paid, Released} && forall j :: 0 <= j < i ==> sigs[j] !in {Paid, Released}
  }

  /**
   * The closed form: without a settlement the reservation stays PENDING; released first, it is EXPIRED; paid first, it
   * is REFUNDED if a refund settles any time later and CONFIRMED otherwise.
   */
  ghost function Outcome(sigs: seq<Signal>): ReservationStatus {
    if exists i: nat :: FirstSettled(sigs, i) then
      var i: nat :| FirstSettled(sigs, i);
      if sigs[i] == Released then Expired
      else if exists j :: i < j < |sigs| && sigs[j] == RefundSettled then Refunded
      else Confirmed
    else Pending
  }

  function Advance(status: ReservationStatus, sig: Signal): ReservationStatus {
    match (status, sig)
    case (Pending, Paid) => Confirmed
    case (Pending, Released) => Expired
    case (Confirmed, RefundSettled) => Refunded
    case _ => status
  }

  lemma SettledStatus(db: Db, ev: WebhookEvent, r: Id)
    ensures Effective(db, ev) && r in db.reservations ==>
            var rs := ReservationsIn(db, ev.metadata);
            UpdateReservations(db.reservations, rs, Transition(ev.kind).value.0, Transition(ev.kind).value.1)[r].status
            == Advance(db.reservations[r].status, EventSignal(db, ev, r))
  {
  }

  lemma DeliveryAdvances(w: World, ev: WebhookEvent, rows: seq<Id>, ids: seq<Id>, r: Id)
    requires Inv(w) && Enabled(w, Deliver(ev, rows, ids)) && r in w.db.reservations
    ensures var after := HandleWebhook(w.db, ev, rows, ids).reservations;
            r in after && after[r].status == Advance(w.db.reservations[r].status, EventSignal(w.db, ev, r))
  {
    DeliverRows(w, ev, rows, ids);
    if Effective(w.db, ev) { SettledStatus(w.db, ev, r); }
  }

  lemma RequestAdvances(w: World, st: Step, r: Id)
    requires !st.Deliver? && !st.Cancel? && !st.Sweep? && !st.Checkout? && Enabled(w, st) && r in w.db.reservations
    ensures r in Apply(w, st).db.reservations && Apply(w, st).db.reservations[r] == w.db.reservations[r]
  {
  }

  lemma CheckoutAdvances(w: World, st: Step, r: Id)
    ensures st.Checkout? && Enabled(w, st) && r in w.db.reservations ==>
            r in Apply(w, st).db.reservations && Apply(w, st).db.reservations[r] == w.db.reservations[r]
  {
  }

  /** One step moves a reservation as its signal says. */
  lemma StepAdvances(w: World, st: Step, r: Id)
    requires Inv(w) && Enabled(w, st) && r in w.db.reservations
    ensures r in Apply(w, st).db.reservations
    ensures Apply(w, st).db.reservations[r].status == Advance(w.db.reservations[r].status, SignalTo(w, st, r))
  {
    match st
    case Deliver(ev, rows, ids) => DeliveryAdvances(w, ev, rows, ids, r);
    case Cancel(_, _) =>
    case Sweep =>
    case Checkout(_, _, _, _, _) => CheckoutAdvances(w, st, r);
    case _ => RequestAdvances(w, st, r);
  }

  /** The status reached from any status, by the closed form. */
  ghost function After(status: ReservationStatus, sigs: seq<Signal>): ReservationStatus {
    match status
    case Pending => Outcome(sigs)
    case Confirmed => if RefundSettled in sigs then Refunded else Confirmed
    case Expired => Expired
    case Refunded => Refunded
  }

  lemma OutcomeOfTail(sigs: seq<Signal>)
    requires sigs != []
    ensures Outcome(sigs) == After(Advance(Pending, sigs[0]), sigs[1..])
  {
    var tail := sigs[1..];
    if sigs[0] in {Paid, Released} {
      assert FirstSettled(sigs, 0);
      assert forall i: nat :: FirstSettled(sigs, i) ==> i == 0;
      if RefundSettled in tail {
        var k :| 0 <= k < |tail| && tail[k] == RefundSettled;
        assert sigs[k + 1] == RefundSettled;
      }
      if j :| 0 < j < |sigs| && sigs[j] == RefundSettled { assert tail[j - 1] == RefundSettled; }
    } else {
      forall i: nat ensures FirstSettled(tail, i) <==> FirstSettled(sigs, i + 1) {
        if FirstSettled(tail, i) {
          forall j | 0 <= j < i + 1 ensures sigs[j] !in {Paid, Released} { if j > 0 { assert sigs[j] == tail[j - 1]; } }
        }
        if FirstSettled(sigs, i + 1) {
          forall j | 0 <= j < i ensures tail[j] !in {Paid, Released} { assert tail[j] == sigs[j + 1]; }
        }
      }
      if i: nat :| FirstSettled(sigs, i) {
        assert FirstSettled(tail, i - 1);
        forall k: nat | FirstSettled(tail, k) ensures k == i - 1 { assert FirstSettled(sigs, k + 1); }
        if j :| i < j < |sigs| && sigs[j] == RefundSettled { assert tail[j - 1] == RefundSettled; }
        if j :| i - 1 < j < |tail| && tail[j] == RefundSettled { assert sigs[j + 1] == RefundSettled; }
      } else {
        forall k: nat ensures !FirstSettled(tail, k) { assert !FirstSettled(sigs, k + 1); }
      }
    }
  }

  lemma {:induction false} StatusAfterRun(w: World, steps: seq<Step>, r: Id)
    requires Inv(w) && ValidRun(w, steps) && r in w.db.reservations
    ensures r in Run(w, steps).db.reservations
    ensures Run(w, steps).db.reservations[r].status == After(w.db.reservations[r].status, Signals(w, steps, r))
    decreases |steps|
  {
    var sigs := Signals(w, steps, r);
    if steps == [] {
      assert !exists i: nat :: FirstSettled(sigs, i);
    } else {
      StepKeeps(w, steps[0]);
      StepAdvances(w, steps[0], r);
      StatusAfterRun(Apply(w, steps[0]), steps[1..], r);
      assert sigs[1..] == Signals(Apply(w, steps[0]), steps[1..], r);
      assert sigs[0] == SignalTo(w, steps[0], r);
      OutcomeOfTail(sigs);
      assert RefundSettled in sigs <==> sigs[0] == RefundSettled || RefundSettled in sigs[1..];
    }
  }

  /** The final status of a pending hold and of its seat, in closed form over the signals of the whole run. */
  lemma FirstOutcomeWins(w: World, steps: seq<Step>, r: Id)
    requires Inv(w) && ValidRun(w, steps) && r in w.db.reservations && w.db.reservations[r].status == Pending
    ensures var db := Run(w, steps).db;
            && r in db.reservations
            && db.reservations[r].status == Outcome(Signals(w, steps, r))
            && Holds(db.reservations, r, w.db.reservations[r].seat)
            && w.db.reservations[r].seat in db.seats
            && db.seats[w.db.reservations[r].seat].status == SeatOf(Outcome(Signals(w, steps, r)))
  {
    StatusAfterRun(w, steps, r);
    InvariantOverRuns(w, steps);
    assert Holds(Run(w, steps).db.reservations, r, w.db.reservations[r].seat);
  }

  /** EXPIRED and REFUNDED are final, and a CONFIRMED reservation only ever becomes REFUNDED; its seat follows. */
  lemma SettledStaysSettled(w: World, steps: seq<Step>, r: Id)
    requires Inv(w) && ValidRun(w, steps) && r in w.db.reservations && w.db.reservations[r].status != Pending
    ensures r in Run(w, steps).db.reservations
    ensures var before, after := w.db.reservations[r], Run(w, steps).db.reservations[r];
            && after.user == before.user && after.seat == before.seat && after.expiresAt == before.expiresAt
            && (after.status == before.status || (before.status == Confirmed && after.status == Refunded))
            && (after.status == before.status <==> before.status != Confirmed || RefundSettled !in Signals(w, steps, r))
            && after.seat in w.db.seats && after.seat in Run(w, steps).db.seats
            && (after.status == before.status ==>
                  Run(w, steps).db.seats[after.seat].status == w.db.seats[after.seat].status)
  {
    StatusAfterRun(w, steps, r);
    InvariantOverRuns(w, steps);
    assert Holds(w.db.reservations, r, w.db.reservations[r].seat);
    assert Holds(Run(w, steps).db.reservations, r, w.db.reservations[r].seat);
  }

  /**
   * A cancellation looks up its reservation, and its transaction runs later: whatever happens in between, it does and
   * answers what the whole call would at the moment of the transaction. A refused look-up is the whole call at its
   * moment.
   */
  lemma SplitCancelIsWhole(w: World, steps: seq<Step>, user: Id, r: Id)
    requires Inv(w) && ValidRun(w, steps)
    ensures CancelRead(w.db, user, r) == None ==>
              CancelLocked(Run(w, steps).db, r) == CancelReservation(Run(w, steps).db, user, r)
    ensures CancelRead(w.db, user, r).Some? ==>
              CancelReservation(w.db, user, r) == (w.db, Err(CancelRead(w.db, user, r).value))
  {
    InvariantOverRuns(w, steps);
  }
}
