/**
 * The expiry sweep as it runs: rows read outside the transaction, stale rows written inside it; and how long holds
 * last.
 */
module Sweeps {
  import opened Text
  import opened Tables
  import opened Booking
  import opened Protocol
  import opened Agreement
  import opened Invariant
  import opened Outcomes
  import opened SeatGrants

  /** A reservation row and its seat row as read by the sweep. */
  datatype Stale = Stale(row: Reservation, seat: Option<Seat>)

  /** The find of expireOverdue at time `now`. */
  function Snapshot(db: Db, now: int): map<Id, Stale> {
    map r | r in db.reservations && IsOverdue(db, r, now) ::
      Stale(db.reservations[r], if db.reservations[r].seat in db.seats then Some(db.seats[db.reservations[r].seat])
          else None)
  }

  /** Seats the stale rows say to release. */
  function StaleSeats(snap: map<Id, Stale>): set<Id> {
    set r | r in snap && snap[r].seat.Some? && snap[r].seat.value.status == Reserved :: snap[r].row.seat
  }

  function ExpiredRows(rows: map<Id, Reservation>, snap: map<Id, Stale>): map<Id, Reservation> {
    map r | r in rows :: if r in snap then snap[r].row.(status := Expired) else rows[r]
  }

  function ReleasedSeats(seats: map<Id, Seat>, ids: set<Id>): map<Id, Seat> {
    map s | s in seats :: if s in ids then seats[s].(status := Available) else seats[s]
  }

  /** The transaction of expireOverdue: saves the rows as read, with the statuses EXPIRED and AVAILABLE. */
  function ApplySnapshot(db: Db, snap: map<Id, Stale>): Db {
    db.(reservations := ExpiredRows(db.reservations, snap), seats := ReleasedSeats(db.seats, StaleSeats(snap)))
  }

  // ---------------------------------------------------------------- what a snapshot still knows later

  /** The snapshot's rows are still those of the table, up to the statuses, and all their seats were RESERVED. */
  ghost predicate StillFounded(snap: map<Id, Stale>, rows: map<Id, Reservation>) {
    forall r :: r in snap ==>
      && r in rows && rows[r] == snap[r].row.(status := rows[r].status)
      && snap[r].seat.Some? && snap[r].seat.value.status == Reserved
  }

  lemma SnapshotFounded(db: Db, now: int)
    ensures Agree(db) ==> StillFounded(Snapshot(db, now), db.reservations)
  {
  }

  /** Which seats a founded snapshot releases: exactly those of its reservations. */
  lemma StaleSeatsAre(snap: map<Id, Stale>, db: Db, r: Id)
    requires Agree(db) && StillFounded(snap, db.reservations) && r in db.reservations
    ensures db.reservations[r].seat in StaleSeats(snap) <==> r in snap
  {
    var s := db.reservations[r].seat;
    assert Holds(db.reservations, r, s);
    if s in StaleSeats(snap) {
      var q :| q in snap && snap[q].row.seat == s;
      assert Holds(db.reservations, q, s);
    }
  }

  /** Writing stale rows never makes the two tables disagree, whatever happened since they were read. */
  lemma StaleWriteAgrees(snap: map<Id, Stale>, db: Db)
    requires Agree(db) && StillFounded(snap, db.reservations)
    ensures Agree(ApplySnapshot(db, snap))
  {
    var after := ApplySnapshot(db, snap);
    forall r, s ensures Holds(after.reservations, r, s) <==> Holds(db.reservations, r, s) {}
    forall r, s | Holds(after.reservations, r, s)
      ensures s in after.seats && after.seats[s].status == SeatOf(after.reservations[r].status)
    {
      assert Holds(db.reservations, r, s);
      StaleSeatsAre(snap, db, r);
    }
    forall s | s in after.seats && after.seats[s].status != Available
      ensures exists r :: Holds(after.reservations, r, s)
    {
      assert db.seats[s].status != Available;
      var r :| Holds(db.reservations, r, s);
      assert Holds(after.reservations, r, s);
    }
  }

  // ---------------------------------------------------------------- two-phase against atomic

  /** Reservations made after a moment expire a full TTL after it. */
  ghost predicate LaterHolds(before: Db, after: Db, since: int) {
    forall r :: r in after.reservations && r !in before.reservations ==>
      after.reservations[r].expiresAt >= since + RESERVATION_TTL_SECONDS
  }

  /** Only reservations and checkouts add rows, all PENDING with the full TTL. */
  lemma NewRows(w: World, st: Step, r: Id)
    requires Inv(w) && Enabled(w, st) && r !in w.db.reservations && r in Apply(w, st).db.reservations
    ensures Apply(w, st).db.reservations[r].expiresAt == w.now + RESERVATION_TTL_SECONDS
    ensures Apply(w, st).db.reservations[r].status == Pending
  {
    match st
    case Reserve(user, seatIds, holds) => InsertedRow(w.db, user, holds, w.now, r);
    case Checkout(user, section, chosen, holds, listing) =>
      CheckoutEither(w.db, user, section, chosen, holds, listing, w.now);
      InsertedRow(w.db, user, holds, w.now, r);
    case Deliver(ev, rows, ids) => DeliverRows(w, ev, rows, ids);
    case _ =>
  }

  lemma InsertedRow(db: Db, user: Id, holds: map<Id, Id>, now: int, r: Id)
    ensures var after := InsertHolds(db, user, holds, now).reservations;
            r in after && r !in db.reservations ==>
                after[r].expiresAt == now + RESERVATION_TTL_SECONDS && after[r].status == Pending
  {
  }

  lemma StepLaterHolds(w: World, st: Step)
    requires Inv(w) && Enabled(w, st)
    ensures LaterHolds(w.db, Apply(w, st).db, w.now) && Apply(w, st).now >= w.now
  {
    forall r | r in Apply(w, st).db.reservations && r !in w.db.reservations
      ensures Apply(w, st).db.reservations[r].expiresAt >= w.now + RESERVATION_TTL_SECONDS
    {
      NewRows(w, st, r);
    }
  }

  lemma {:induction false} RunLaterHolds(w: World, steps: seq<Step>)
    requires Inv(w) && ValidRun(w, steps)
    ensures LaterHolds(w.db, Run(w, steps).db, w.now) && Run(w, steps).now >= w.now
    decreases |steps|
  {
    if steps != [] {
      var next := Apply(w, steps[0]);
      StepKeeps(w, steps[0]);
      StepLaterHolds(w, steps[0]);
      RunLaterHolds(next, steps[1..]);
      InvariantOverRuns(next, steps[1..]);
    }
  }

  /** No snapshotted reservation has been confirmed. */
  ghost predicate NoneConfirmed(snap: map<Id, Stale>, db: Db) {
    forall r ::
        r in snap && r in db.reservations ==>
        db.reservations[r].status == Pending || db.reservations[r].status == Expired
  }

  lemma SameRowsIff(snap: map<Id, Stale>, db: Db, now: int)
    requires StillFounded(snap, db.reservations)
    requires forall r :: IsOverdue(db, r, now) ==> r in snap
    requires forall r :: r in snap ==> snap[r].row.expiresAt < now
    ensures ApplySnapshot(db, snap).reservations == ExpireOverdue(db, now).reservations <==> NoneConfirmed(snap, db)
  {
    var stale, atomic := ApplySnapshot(db, snap).reservations, ExpireOverdue(db, now).reservations;
    if NoneConfirmed(snap, db) {
      forall r | r in db.reservations ensures stale[r] == atomic[r] {}
    } else {
      var r :| r in snap && r in db.reservations && db.reservations[r].status != Pending &&
          db.reservations[r].status != Expired;
      assert stale[r].status == Expired && atomic[r].status != Expired;
    }
  }

  lemma SameSeats(snap: map<Id, Stale>, db: Db, now: int)
    requires Agree(db) && StillFounded(snap, db.reservations) && NoneConfirmed(snap, db)
    requires forall r :: IsOverdue(db, r, now) ==> r in snap
    requires forall r :: r in snap ==> snap[r].row.expiresAt < now
    ensures ApplySnapshot(db, snap).seats == ExpireOverdue(db, now).seats
  {
    var stale, atomic := ApplySnapshot(db, snap).seats, ExpireOverdue(db, now).seats;
    forall s | s in db.seats ensures stale[s] == atomic[s] {
      if r :| Holds(db.reservations, r, s) {
        StaleSeatsAre(snap, db, r);
      }
    }
  }

  /**
   * A sweep that read at one moment and wrote after any further steps leaves the tables an atomic sweep for its reading
   * time would leave if and only if none of the reservations it read was confirmed in between, however many were
   * cancelled, expired or newly made.
   */
  lemma {:induction false} TwoPhaseSweepIsAtomicIff(w: World, steps: seq<Step>)
    requires Inv(w) && ValidRun(w, steps)
    ensures var snap := Snapshot(w.db, w.now);
            var db := Run(w, steps).db;
            ApplySnapshot(db, snap) == ExpireOverdue(db, w.now) <==> NoneConfirmed(snap, db)
  {
    var snap := Snapshot(w.db, w.now);
    var db := Run(w, steps).db;
    InvariantOverRuns(w, steps);
    SnapshotFounded(w.db, w.now);
    RunLaterHolds(w, steps);
    forall r | IsOverdue(db, r, w.now) ensures r in snap {
      assert r in w.db.reservations;
      if w.db.reservations[r].status != Pending { SettledStaysSettled(w, steps, r); }
    }
    SameRowsIff(snap, db, w.now);
    if NoneConfirmed(snap, db) { SameSeats(snap, db, w.now); }
  }

  /** No payment was the first settlement. */
  ghost predicate NotPaidFirst(sigs: seq<Signal>) {
    forall i: nat :: FirstSettled(sigs, i) ==> sigs[i] == Released
  }

  /**
   * In terms of the steps in between: the sweep goes wrong exactly for a reservation whose first settlement was a
   * payment.
   */
  lemma ConfirmedInBetweenIff(w: World, steps: seq<Step>)
    requires Inv(w) && ValidRun(w, steps)
    ensures NoneConfirmed(Snapshot(w.db, w.now), Run(w, steps).db) <==>
            forall r :: r in Snapshot(w.db, w.now) ==> NotPaidFirst(Signals(w, steps, r))
  {
    var snap := Snapshot(w.db, w.now);
    var rows := Run(w, steps).db.reservations;
    forall r | r in snap
      ensures r in rows &&
              (rows[r].status == Pending || rows[r].status == Expired <==> NotPaidFirst(Signals(w, steps, r)))
    {
      FirstOutcomeWins(w, steps, r);
      OutcomeReleasedIff(Signals(w, steps, r));
    }
  }

  lemma OutcomeReleasedIff(sigs: seq<Signal>)
    ensures Outcome(sigs) == Pending || Outcome(sigs) == Expired <==> NotPaidFirst(sigs)
  {
  }

  /**
   * What goes wrong: a confirmed, paid booking is expired and its seat shows AVAILABLE again, with payment and ticket
   * left.
   */
  lemma {:induction false} LateSweepUndoesPaidBooking(w: World, steps: seq<Step>, r: Id)
    requires Inv(w) && ValidRun(w, steps) && r in Snapshot(w.db, w.now)
    requires r in Run(w, steps).db.reservations && Run(w, steps).db.reservations[r].status == Confirmed
    ensures var db := Run(w, steps).db;
            var after := ApplySnapshot(db, Snapshot(w.db, w.now));
            && after.reservations[r].status == Expired
            && after.reservations[r].seat in after.seats && after.seats[after.reservations[r].seat].status == Available
            && after.payments == db.payments && after.tickets == db.tickets
            && !(exists now :: after == ExpireOverdue(db, now))
  {
    InvariantOverRuns(w, steps);
    SnapshotFounded(w.db, w.now);
  }

  lemma HeldShopReached()
    ensures ValidRun(EmptyShop(), [BulkCreate(5, {7})] + ([CHECKOUT] + ([Tick(601)] + [])))
    ensures Run(EmptyShop(), [BulkCreate(5, {7})] + ([CHECKOUT] + ([Tick(601)] + []))) == HeldShop(601)
  {
    SeatAdded();
    SeatCheckedOut();
    RunStep(HeldShop(0), Tick(601), HeldShop(601), []);
    RunStep(OpenShop(), CHECKOUT, HeldShop(0), [Tick(601)] + []);
    RunStep(EmptyShop(), BulkCreate(5, {7}), OpenShop(), [CHECKOUT] + ([Tick(601)] + []));
  }

  lemma HeldShopInv()
    ensures Inv(HeldShop(601))
  {
    HeldShopReached();
    InitialInv(EmptyShop());
    InvariantOverRuns(EmptyShop(), [BulkCreate(5, {7})] + ([CHECKOUT] + ([Tick(601)] + [])));
  }

  /** The witness run: a hold just overdue is read by a sweep, paid, and then expired by the sweep's late write. */
  lemma PaidBetweenReadAndWrite(ev: WebhookEvent)
    requires ev.kind == CollectionSucceeded && ev.metadata == OrderMetadata(ORDER)
    ensures var w, steps := HeldShop(601), [Deliver(ev, [8], [20])];
            && Inv(w) && ValidRun(w, steps) && 8 in Snapshot(w.db, w.now)
            && 8 in Run(w, steps).db.reservations && Run(w, steps).db.reservations[8].status == Confirmed
            && ApplySnapshot(Run(w, steps).db, Snapshot(w.db, w.now)) != ExpireOverdue(Run(w, steps).db, w.now)
  {
    HeldShopInv();
    var w := HeldShop(601);
    var st := Deliver(ev, [8], [20]);
    assert w.orders[0] == ORDER;
    MetadataRoundTrip(w.db, ORDER);
    assert Elements(ORDER.reservations) == {8} by { OneHold(8); }
    assert Enabled(w, st) by { assert OrderMetadata(w.orders[0]) == ev.metadata; OneHold(8); }
    StepAdvances(w, st, 8);
    assert Run(w, [st]) == Apply(w, st);
    assert IsOverdue(w.db, 8, 601);
    TwoPhaseSweepIsAtomicIff(w, [st]);
  }

  // ---------------------------------------------------------------- agreement with split sweeps among the steps

  /** A run that also contains sweeps in progress: their snapshots, in the order they were taken. */
  datatype Floor = Floor(w: World, snaps: seq<map<Id, Stale>>)

  datatype Move = Plain(st: Step) | Read | Write(i: nat)

  predicate CanMove(f: Floor, m: Move) {
    match m
    case Plain(st) => Enabled(f.w, st)
    case Read => true
    case Write(i) => i < |f.snaps|
  }

  function DoMove(f: Floor, m: Move): Floor
    requires CanMove(f, m)
  {
    match m
    case Plain(st) => f.(w := Apply(f.w, st))
    case Read => f.(snaps := f.snaps + [Snapshot(f.w.db, f.w.now)])
    case Write(i) => f.(w := f.w.(db := ApplySnapshot(f.w.db, f.snaps[i])))
  }

  predicate ValidMoves(f: Floor, ms: seq<Move>)
    decreases |ms|
  {
    ms != [] ==> CanMove(f, ms[0]) && ValidMoves(DoMove(f, ms[0]), ms[1..])
  }

  function RunMoves(f: Floor, ms: seq<Move>): Floor
    requires ValidMoves(f, ms)
    decreases |ms|
  {
    if ms == [] then f else RunMoves(DoMove(f, ms[0]), ms[1..])
  }

  ghost predicate FloorInv(f: Floor) {
    Inv(f.w) && forall i :: 0 <= i < |f.snaps| ==> StillFounded(f.snaps[i], f.w.db.reservations)
  }

  lemma MoveKeeps(f: Floor, m: Move)
    requires FloorInv(f) && CanMove(f, m)
    ensures FloorInv(DoMove(f, m))
  {
    var after := DoMove(f, m);
    match m
    case Plain(st) =>
      StepKeeps(f.w, st);
    case Read =>
      SnapshotFounded(f.w.db, f.w.now);
    case Write(i) =>
      StaleWriteAgrees(f.snaps[i], f.w.db);
      OrdersKept(f.w, after.w);
  }

  lemma {:induction false} FloorInvOverMoves(f: Floor, ms: seq<Move>)
    requires FloorInv(f) && ValidMoves(f, ms)
    ensures FloorInv(RunMoves(f, ms))
    decreases |ms|
  {
    if ms != [] {
      MoveKeeps(f, ms[0]);
      FloorInvOverMoves(DoMove(f, ms[0]), ms[1..]);
    }
  }

  /** The tables agree in every reachable state even when any number of sweeps read and write at different moments. */
  lemma TablesAgreeDespiteSplitSweeps(w: World, ms: seq<Move>)
    requires Initial(w) && ValidMoves(Floor(w, []), ms)
    ensures Agree(RunMoves(Floor(w, []), ms).w.db)
  {
    InitialInv(w);
    FloorInvOverMoves(Floor(w, []), ms);
  }

  /** Rows made since that moment expire a full TTL after it; older ones stay, and none turns PENDING again. */
  ghost predicate Since(before: map<Id, Reservation>, after: map<Id, Reservation>, since: int) {
    && (forall r :: r in after && r !in before ==> after[r].expiresAt >= since + RESERVATION_TTL_SECONDS)
    && (forall r :: r in before ==>
          && r in after && after[r] == before[r].(status := after[r].status)
          && (after[r].status == Pending ==> before[r].status == Pending))
  }

  lemma StepSince(w: World, st: Step)
    requires Inv(w) && Enabled(w, st)
    ensures Since(w.db.reservations, Apply(w, st).db.reservations, w.now)
  {
    StepKeeps(w, st);
    StepLaterHolds(w, st);
    forall r | r in w.db.reservations && Apply(w, st).db.reservations[r].status == Pending
      ensures w.db.reservations[r].status == Pending
    {
      StepAdvances(w, st, r);
    }
  }

  lemma MoveSince(f: Floor, m: Move)
    requires FloorInv(f) && CanMove(f, m)
    ensures Since(f.w.db.reservations, DoMove(f, m).w.db.reservations, f.w.now) && DoMove(f, m).w.now >= f.w.now
  {
    match m
    case Plain(st) => StepSince(f.w, st);
    case Read =>
    case Write(i) =>
  }

  lemma {:induction false} SinceOverMoves(f: Floor, ms: seq<Move>)
    requires FloorInv(f) && ValidMoves(f, ms)
    ensures Since(f.w.db.reservations, RunMoves(f, ms).w.db.reservations, f.w.now)
    decreases |ms|
  {
    if ms != [] {
      var next := DoMove(f, ms[0]);
      MoveKeeps(f, ms[0]);
      MoveSince(f, ms[0]);
      SinceOverMoves(next, ms[1..]);
    }
  }

  lemma SnapshotSince(db: Db, now: int, after: map<Id, Reservation>)
    requires Agree(db) && Since(db.reservations, after, now)
    ensures StillFounded(Snapshot(db, now), after)
    ensures forall r :: r in after && after[r].status == Pending && after[r].expiresAt < now ==> r in Snapshot(db, now)
  {
    SnapshotFounded(db, now);
  }

  /**
   * The exact condition also with other split sweeps in flight, reading and writing among the steps: the late write is
   * an atomic sweep for its reading time if and only if none of the rows it read is confirmed when it writes.
   */
  lemma SplitSweepIsAtomicIff(f: Floor, ms: seq<Move>)
    requires FloorInv(f) && ValidMoves(f, ms)
    ensures var snap := Snapshot(f.w.db, f.w.now);
            var db := RunMoves(f, ms).w.db;
            ApplySnapshot(db, snap) == ExpireOverdue(db, f.w.now) <==> NoneConfirmed(snap, db)
  {
    var snap := Snapshot(f.w.db, f.w.now);
    var db := RunMoves(f, ms).w.db;
    FloorInvOverMoves(f, ms);
    SinceOverMoves(f, ms);
    SnapshotSince(f.w.db, f.w.now, db.reservations);
    SameRowsIff(snap, db, f.w.now);
    if NoneConfirmed(snap, db) { SameSeats(snap, db, f.w.now); }
  }

  // ---------------------------------------------------------------- how long a hold lasts

  function CreatedAt(row: Reservation): int {
    row.expiresAt - RESERVATION_TTL_SECONDS
  }

  /** Sweeps come often enough: at no moment is the last one more than `period` old. */
  predicate SweptEvery(period: int, now: int, last: int, steps: seq<Step>)
    decreases |steps|
  {
    && now - last <= period
    && (steps != [] ==>
          match steps[0]
          case Tick(elapsed) => SweptEvery(period, now + elapsed, last, steps[1..])
          case Sweep => SweptEvery(period, now, now, steps[1..])
          case _ => SweptEvery(period, now, last, steps[1..]))
  }

  /** No pending hold was overdue at the last sweep. */
  ghost predicate HoldsSince(db: Db, last: int) {
    forall r :: r in db.reservations && db.reservations[r].status == Pending ==> db.reservations[r].expiresAt >= last
  }

  lemma StepHoldsSince(w: World, st: Step, last: int)
    requires Inv(w) && Enabled(w, st) && HoldsSince(w.db, last) && last <= w.now
    ensures HoldsSince(Apply(w, st).db, if st.Sweep? then w.now else last)
  {
    StepKeeps(w, st);
    StepLaterHolds(w, st);
    var after := Apply(w, st).db;
    forall r | r in after.reservations && after.reservations[r].status == Pending
      ensures after.reservations[r].expiresAt >= if st.Sweep? then w.now else last
    {
      if r in w.db.reservations { StepAdvances(w, st, r); }
    }
  }

  /** With a sweep at least every `period` seconds a hold is pending no longer than its TTL plus one period. */
  lemma {:induction false} HoldTimeBound(w: World, steps: seq<Step>, period: nat, last: int, r: Id)
    requires Inv(w) && ValidRun(w, steps) && HoldsSince(w.db, last) && last <= w.now
    requires SweptEvery(period, w.now, last, steps)
    requires r in Run(w, steps).db.reservations && Run(w, steps).db.reservations[r].status == Pending
    ensures Run(w, steps).now - CreatedAt(Run(w, steps).db.reservations[r]) <= RESERVATION_TTL_SECONDS + period
    decreases |steps|
  {
    if steps != [] {
      var st := steps[0];
      StepKeeps(w, st);
      StepLaterHolds(w, st);
      StepHoldsSince(w, st, last);
      HoldTimeBound(Apply(w, st), steps[1..], period, if st.Sweep? then w.now else last, r);
    }
  }

  const SWEEP_PERIOD_SECONDS := 60

  /** With the server's timer, no reservation is PENDING more than 660 seconds after its creation. */
  lemma NoHoldOutlives660Seconds(w: World, steps: seq<Step>, r: Id)
    requires Initial(w) && ValidRun(w, steps) && SweptEvery(SWEEP_PERIOD_SECONDS, w.now, w.now, steps)
    requires r in Run(w, steps).db.reservations && Run(w, steps).db.reservations[r].status == Pending
    ensures Run(w, steps).now - CreatedAt(Run(w, steps).db.reservations[r]) <= 660
  {
    InitialInv(w);
    HoldTimeBound(w, steps, SWEEP_PERIOD_SECONDS, w.now, r);
  }

  /** A sweep ends a pending hold exactly when its full 600 seconds have passed. */
  lemma SweepSparesYoungHolds(w: World, r: Id)
    requires r in w.db.reservations && w.db.reservations[r].status == Pending
    ensures r in Apply(w, Sweep).db.reservations
    ensures Apply(w, Sweep).db.reservations[r].status == Expired <==> w.now - CreatedAt(w.db.reservations[r]) > 600
    ensures Apply(w, Sweep).db.reservations[r].status == Pending <==> w.now - CreatedAt(w.db.reservations[r]) <= 600
  {
  }

  /** A reservation is created at the moment its step runs, with exactly 600 seconds to live. */
  lemma HoldStartsNow(w: World, st: Step, r: Id)
    requires Inv(w) && Enabled(w, st) && r !in w.db.reservations && r in Apply(w, st).db.reservations
    ensures CreatedAt(Apply(w, st).db.reservations[r]) == w.now && Apply(w, st).db.reservations[r].status == Pending
  {
    NewRows(w, st, r);
  }
}
