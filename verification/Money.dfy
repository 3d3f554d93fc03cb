/** Payments over whole runs: what was collected, once each, and what refunds do to it. */
module Money {
  import opened Tables
  import opened Booking
  import opened Protocol
  import opened Agreement
  import opened Invariant

  /** A payment row without its status. */
  datatype Charge = Charge(key: Id, user: Option<Id>, amount: int, reference: Id)

  function ChargeOf(p: Payment): Charge {
    Charge(p.idempotencyKey, p.user, p.amount, p.reference)
  }

  function Ledger(payments: seq<Payment>): (charges: seq<Charge>)
    ensures |charges| == |payments|
  {
    seq(|payments|, i requires 0 <= i < |payments| => ChargeOf(payments[i]))
  }

  function Total(charges: seq<Charge>): int {
    if charges == [] then 0 else charges[0].amount + Total(charges[1..])
  }

  /** The provider collected money for an order with this event, and it is the first delivery of the event. */
  predicate Collects(seen: set<Id>, st: Step) {
    && st.Deliver? && st.ev.id !in seen && st.ev.kind == CollectionSucceeded
    && st.ev.metadata.reservationIds != "" && st.ev.metadata.seatIds != ""
  }

  predicate Refunds(seen: set<Id>, st: Step) {
    && st.Deliver? && st.ev.id !in seen && st.ev.kind == RefundPaid
    && st.ev.metadata.reservationIds != "" && st.ev.metadata.seatIds != ""
  }

  function Seen(seen: set<Id>, st: Step): set<Id> {
    if st.Deliver? then seen + {st.ev.id} else seen
  }

  /**
   * What the provider collected over the steps, read from the deliveries alone: first deliveries of successful
   * collections.
   */
  function Collected(seen: set<Id>, steps: seq<Step>): seq<Charge>
    decreases |steps|
  {
    if steps == [] then []
    else
      var rest := Collected(Seen(seen, steps[0]), steps[1..]);
      if Collects(seen, steps[0]) then
        var ev := steps[0].ev;
        [Charge(ev.id, ev.metadata.userId, if ev.amount.Some? then ev.amount.value else 0, ev.reference)] + rest
      else rest
  }

  lemma StepPayments(w: World, st: Step)
    requires Inv(w) && Enabled(w, st)
    ensures var after := Apply(w, st).db;
            && after.processed == Seen(w.db.processed, st)
            && (if Collects(w.db.processed, st) then
                  var amount := if st.ev.amount.Some? then st.ev.amount.value else 0;
                  after.payments == w.db.payments +
                    [Payment(st.ev.metadata.userId, amount, st.ev.reference, Successful, st.ev.id)]
                else if Refunds(w.db.processed, st) && st.ev.metadata.userId.Some? then
                  after.payments == RefundPayments(w.db.payments, st.ev.metadata.userId.value)
                else after.payments == w.db.payments)
  {
    if st.Deliver? { DeliverSettles(w, st.ev, st.rows, st.ids); }
  }

  lemma LedgerAfterStep(w: World, st: Step)
    requires Inv(w) && Enabled(w, st)
    ensures Ledger(Apply(w, st).db.payments) == Ledger(w.db.payments) + Collected(w.db.processed, [st])
    ensures Apply(w, st).db.processed == Seen(w.db.processed, st)
  {
    StepPayments(w, st);
    assert Collected(Seen(w.db.processed, st), []) == [];
  }

  lemma CollectedSplits(before: seq<Charge>, seen: set<Id>, steps: seq<Step>)
    ensures steps != [] ==>
            before + Collected(seen, steps) ==
            (before + Collected(seen, [steps[0]])) + Collected(Seen(seen, steps[0]), steps[1..])
  {
  }

  /**
   * The payment table is the list of what was collected: over any run it grows by exactly one row per first delivery of
   * a successful collection, with that event's id, user and amount, in delivery order. Nothing else adds, drops or
   * edits a row except for its status.
   */
  lemma {:induction false} LedgerIsCollected(w: World, steps: seq<Step>)
    requires Inv(w) && ValidRun(w, steps)
    ensures Ledger(Run(w, steps).db.payments) == Ledger(w.db.payments) + Collected(w.db.processed, steps)
    decreases |steps|
  {
    if steps != [] {
      var next := Apply(w, steps[0]);
      StepKeeps(w, steps[0]);
      LedgerAfterStep(w, steps[0]);
      LedgerIsCollected(next, steps[1..]);
      CollectedSplits(Ledger(w.db.payments), w.db.processed, steps);
    }
  }

  lemma {:induction false} TotalOfSum(a: seq<Charge>, b: seq<Charge>)
    ensures Total(a + b) == Total(a) + Total(b)
  {
    if a == [] {
      assert a + b == b;
    } else {
      TotalOfSum(a[1..], b);
      assert (a + b)[1..] == a[1..] + b;
    }
  }

  /** Money is conserved: the table's total grows by exactly what was collected. */
  lemma {:induction false} MoneyConserved(w: World, steps: seq<Step>)
    requires Inv(w) && ValidRun(w, steps)
    ensures Total(Ledger(Run(w, steps).db.payments)) ==
            Total(Ledger(w.db.payments)) + Total(Collected(w.db.processed, steps))
  {
    LedgerIsCollected(w, steps);
    TotalOfSum(Ledger(w.db.payments), Collected(w.db.processed, steps));
  }

  /** The collected charges have distinct keys, none of them seen before. */
  lemma {:induction false} CollectedOnce(seen: set<Id>, steps: seq<Step>)
    ensures forall i :: 0 <= i < |Collected(seen, steps)| ==> Collected(seen, steps)[i].key !in seen
    ensures forall i, j ::
            0 <= i < j < |Collected(seen, steps)| ==> Collected(seen, steps)[i].key != Collected(seen, steps)[j].key
    decreases |steps|
  {
    if steps != [] {
      CollectedOnce(Seen(seen, steps[0]), steps[1..]);
    }
  }

  /**
   * From a fresh installation: one payment row per collected event, never two, and the total is the collected total.
   */
  lemma EveryCollectionPaidOnce(w: World, steps: seq<Step>)
    requires Initial(w) && ValidRun(w, steps)
    ensures var payments := Run(w, steps).db.payments;
            && Ledger(payments) == Collected({}, steps)
            && Total(Ledger(payments)) == Total(Collected({}, steps))
            && forall i, j :: 0 <= i < j < |payments| ==> payments[i].idempotencyKey != payments[j].idempotencyKey
  {
    InitialInv(w);
    LedgerIsCollected(w, steps);
    CollectedOnce({}, steps);
    var payments := Run(w, steps).db.payments;
    assert Ledger(w.db.payments) == [];
    forall i, j | 0 <= i < j < |payments| ensures payments[i].idempotencyKey != payments[j].idempotencyKey {
      assert Ledger(payments)[i].key != Ledger(payments)[j].key;
    }
  }

  // ---------------------------------------------------------------- refunds

  /** Some effective refund of the run names the user. */
  function UserRefunded(seen: set<Id>, steps: seq<Step>, user: Id): bool
    decreases |steps|
  {
    steps != [] &&
    ((Refunds(seen, steps[0]) && steps[0].ev.metadata.userId == Some(user)) ||
        UserRefunded(Seen(seen, steps[0]), steps[1..], user))
  }

  /**
   * The fate of a payment: SUCCESSFUL turns REFUNDED exactly when a refund naming its user settles later; no other
   * status ever changes. The refund need not be of the payment's own order.
   */
  lemma {:induction false} PaymentFate(w: World, steps: seq<Step>, i: nat)
    requires Inv(w) && ValidRun(w, steps) && i < |w.db.payments|
    ensures i < |Run(w, steps).db.payments|
    ensures var p, q := w.db.payments[i], Run(w, steps).db.payments[i];
            && q == p.(status := q.status)
            && q.status ==
                (if p.status == Successful && p.user.Some? && UserRefunded(w.db.processed, steps, p.user.value)
                            then Returned else p.status)
    decreases |steps|
  {
    if steps != [] {
      StepKeeps(w, steps[0]);
      StepPayments(w, steps[0]);
      PaymentFate(Apply(w, steps[0]), steps[1..], i);
    }
  }
}
