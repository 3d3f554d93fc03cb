/** What the unique index on reservations.seat_id means: a seat is granted once, and the agreement depends on it. */
module SeatGrants {
  import opened Text
  import opened Tables
  import opened Booking
  import opened Protocol
  import opened Agreement
  import opened Invariant

  /** The step is a reservation or checkout that succeeds in taking the seat. */
  ghost predicate Grants(w: World, st: Step, s: Id) {
    match st
    case Reserve(user, seatIds, holds) => s in seatIds && CreateReservations(w.db, user, seatIds, holds, w.now).1.Ok?
    case Checkout(user, section, chosen, holds, listing) =>
      s in chosen && CreateCheckout(w.db, user, section, chosen, holds, listing, w.now).1.Ok?
    case _ => false
  }

  ghost predicate Held(db: Db, s: Id) {
    exists r :: Holds(db.reservations, r, s)
  }

  ghost function GrantCount(w: World, steps: seq<Step>, s: Id): nat
    requires ValidRun(w, steps)
    decreases |steps|
  {
    if steps == [] then 0
    else (if Grants(w, steps[0], s) then 1 else 0) + GrantCount(Apply(w, steps[0]), steps[1..], s)
  }

  lemma HoldsInserted(db: Db, user: Id, seatIds: set<Id>, holds: map<Id, Id>, now: int, s: Id)
    requires FreshHolds(db, seatIds, holds)
    ensures Held(InsertHolds(db, user, holds, now), s) <==> Held(db, s) || s in seatIds
  {
    var after := InsertHolds(db, user, holds, now);
    if r :| Holds(db.reservations, r, s) {
      InsertHoldsHolders(db, user, seatIds, holds, now, r, s);
      assert Holds(after.reservations, r, s);
    }
    if s in seatIds {
      var r :| r in holds && holds[r] == s;
      InsertHoldsHolders(db, user, seatIds, holds, now, r, s);
      assert Holds(after.reservations, r, s);
    }
    if r :| Holds(after.reservations, r, s) {
      InsertHoldsHolders(db, user, seatIds, holds, now, r, s);
    }
  }

  lemma SameRowsSameHeld(db: Db, after: Db, s: Id)
    requires Keeps(db, after) && after.reservations.Keys == db.reservations.Keys
    ensures Held(after, s) <==> Held(db, s)
  {
    if r :| Holds(db.reservations, r, s) { assert Holds(after.reservations, r, s); }
    if r :| Holds(after.reservations, r, s) { assert Holds(db.reservations, r, s); }
  }

  lemma ReserveTakesSeat(db: Db, user: Id, seatIds: set<Id>, holds: map<Id, Id>, now: int, s: Id)
    requires FreshHolds(db, seatIds, holds)
    ensures var (after, result) := CreateReservations(db, user, seatIds, holds, now);
            && (Held(after, s) <==> Held(db, s) || (result.Ok? && s in seatIds))
            && (result.Ok? && s in seatIds ==> !Held(db, s))
  {
    if CreateReservations(db, user, seatIds, holds, now).1.Ok? {
      HoldsInserted(db, user, seatIds, holds, now, s);
    }
  }

  lemma CheckoutTakesSeat(w: World, st: Step, s: Id)
    requires st.Checkout? && Enabled(w, st)
    ensures Held(Apply(w, st).db, s) <==> Held(w.db, s) || Grants(w, st, s)
    ensures Grants(w, st, s) ==> !Held(w.db, s)
  {
    if CreateCheckout(w.db, st.user, st.section, st.chosen, st.holds, st.listing, w.now).1.Ok? {
      CheckoutReserves(w.db, st.user, st.section, st.chosen, st.holds, st.listing, w.now);
      ReserveTakesSeat(w.db, st.user, Elements(st.chosen), st.holds, w.now, s);
    } else {
      FailedCheckoutKeepsRows(w, st);
    }
  }

  /** A grant needs a seat nobody ever held, and after it the seat has been held; no other step changes that. */
  lemma GrantTakesSeat(w: World, st: Step, s: Id)
    requires Inv(w) && Enabled(w, st)
    ensures Held(Apply(w, st).db, s) <==> Held(w.db, s) || Grants(w, st, s)
    ensures Grants(w, st, s) ==> !Held(w.db, s)
  {
    if st.Reserve? {
      ReserveTakesSeat(w.db, st.user, st.seatIds, st.holds, w.now, s);
    } else if st.Checkout? {
      CheckoutTakesSeat(w, st, s);
    } else {
      StepKeeps(w, st);
      SameKeys(w, st);
      SameRowsSameHeld(w.db, Apply(w, st).db, s);
    }
  }

  lemma SameKeys(w: World, st: Step)
    requires Inv(w) && Enabled(w, st) && !st.Reserve? && !st.Checkout?
    ensures Apply(w, st).db.reservations.Keys == w.db.reservations.Keys
  {
    if st.Deliver? { DeliverRows(w, st.ev, st.rows, st.ids); }
  }

  /**
   * A checkout that fails has reserved nothing: after the reservations are made it can only fail on an empty list,
   * since the reservation's foreign key has already vouched for the user.
   */
  lemma FailedCheckoutKeepsRows(w: World, st: Step)
    requires st.Checkout? && Enabled(w, st)
    requires CreateCheckout(w.db, st.user, st.section, st.chosen, st.holds, st.listing, w.now).1.Err?
    ensures Apply(w, st) == w
  {
    var seatIds := Elements(st.chosen);
    var (db1, reserved) := CreateReservations(w.db, st.user, seatIds, st.holds, w.now);
    if reserved.Ok? && db1 != w.db {
      assert db1 == InsertHolds(w.db, st.user, st.holds, w.now);
      if st.holds == map[] { assert false; }
      var r :| r in st.holds;
      assert st.holds[r] in seatIds;
      ReserveSucceeds(w.db, st.user, seatIds, st.holds, w.now);
      assert st.user in db1.users;
      assert r in Elements(st.listing);
    }
  }

  /**
   * No seat is granted to two calls: over any run the grants of a seat number exactly the reservation rows it gains,
   * and it never gains a second.
   */
  lemma {:induction false} SeatGrantedOnce(w: World, steps: seq<Step>, s: Id)
    requires Inv(w) && ValidRun(w, steps)
    ensures GrantCount(w, steps, s) == (if Held(Run(w, steps).db, s) && !Held(w.db, s) then 1 else 0)
    ensures Held(w.db, s) ==> Held(Run(w, steps).db, s)
    decreases |steps|
  {
    if steps != [] {
      StepKeeps(w, steps[0]);
      GrantTakesSeat(w, steps[0], s);
      SeatGrantedOnce(Apply(w, steps[0]), steps[1..], s);
    }
  }

  /**
   * A released seat is not sold again. Its expired or refunded reservation keeps the seat_id, so every later
   * reservation of the seat fails, whatever has happened in between.
   */
  lemma ReleasedSeatNeverResold(w: World, steps: seq<Step>, s: Id, user: Id, seatIds: set<Id>, holds: map<Id, Id>)
    requires Inv(w) && Held(w.db, s) && ValidRun(w, steps) && s in seatIds
    ensures CreateReservations(Run(w, steps).db, user, seatIds, holds, Run(w, steps).now).1.Err?
  {
    SeatGrantedOnce(w, steps, s);
    var db := Run(w, steps).db;
    var r :| Holds(db.reservations, r, s);
    ReserveSucceeds(db, user, seatIds, holds, Run(w, steps).now);
  }

  /**
   * Without the index: a hold inserted over a released order's seat is undone by any stale release event of that order,
   * because the seat update does not look at the holder. The new hold stays PENDING while its seat shows AVAILABLE.
   */
  lemma StaleReleaseBreaksSecondHold(w: World, i: nat, user: Id, holds: map<Id, Id>, ev: WebhookEvent, r: Id)
    requires Inv(w) && i < |w.orders| && ev.metadata == OrderMetadata(w.orders[i])
    requires FreshHolds(w.db, holds.Values, holds) && holds.Values <= w.db.seats.Keys
    requires r in holds && holds[r] in w.orders[i].seats
    ensures var second := InsertHolds(w.db, user, holds, w.now);
            var after := ReleaseHold(second, ev);
            after.reservations[r].status == Pending && after.seats[holds[r]].status == Available && !Agree(after)
  {
    var o := w.orders[i];
    IdListRoundTrip(o.reservations);
    IdListRoundTrip(o.seats);
    var second := InsertHolds(w.db, user, holds, w.now);
    var after := ReleaseHold(second, ev);
    assert r !in w.db.reservations && r !in o.reservations;
    assert holds[r] in SeatsIn(second, ev.metadata);
    assert second.seats[holds[r]].status == Reserved;
    assert Holds(after.reservations, r, holds[r]);
  }

  // A run to a released order: one seat, checked out, and swept after its deadline.

  const CHECKOUT := Step.Checkout(1, 5, [7], map[8 := 7], [8])
  const ORDER := Order(1, 5, 3, [8], [7])

  /** A shop with one seat, in the given status, and the given reservations, orders and clock. */
  function Shop(seats: map<Id, Seat>, rows: map<Id, Reservation>, orders: seq<Order>, now: int): World {
    World(Db({1, 2}, map[3 := EventRow(4, Published)], map[5 := Section(3, Some(6))], seats, rows, [], map[], {}),
          orders, now)
  }

  function EmptyShop(): World { Shop(map[], map[], [], 0) }
  function OpenShop(): World { Shop(map[7 := Seat(5, Available)], map[], [], 0) }
  function HeldShop(now: int): World {
    Shop(map[7 := Seat(5, Reserved)], map[8 := Reservation(1, 7, Pending, 600)], [ORDER], now)
  }
  function ReleasedShop(): World {
    Shop(map[7 := Seat(5, Available)], map[8 := Reservation(1, 7, Expired, 600)], [ORDER], 601)
  }

  function ReleasedRun(): seq<Step> {
    [BulkCreate(5, {7})] + ([CHECKOUT] + ([Tick(601)] + ([Sweep] + [])))
  }

  lemma SeatAdded()
    ensures Enabled(EmptyShop(), BulkCreate(5, {7})) && Apply(EmptyShop(), BulkCreate(5, {7})) == OpenShop()
  {
  }

  lemma OneHold(r: Id)
    ensures (map[r := 7]).Values == {7} && (map[r := 7]).Keys == {r}
    ensures Elements([7]) == {7} && Elements([r]) == {r}
  {
    assert (map[r := 7])[r] == 7;
  }

  lemma SeatReserved()
    ensures CreateReservations(OpenShop().db, 1, {7}, map[8 := 7], 0) == (HeldShop(0).db, Ok({8}))
    ensures FreshHolds(OpenShop().db, {7}, map[8 := 7])
  {
    var db := OpenShop().db;
    var holds := map[8 := 7];
    OneHold(8);
    assert InsertHolds(db, 1, holds, 0).seats == HeldShop(0).db.seats;
    assert InsertHolds(db, 1, holds, 0).reservations == HeldShop(0).db.reservations;
  }

  lemma CheckoutAllowed()
    ensures CheckoutCheck(OpenShop().db, 5, [7]) == None
  {
    assert FoundSeats(OpenShop().db, [7]) == {7};
  }

  lemma CheckoutPasses()
    ensures CreateCheckout(OpenShop().db, 1, 5, [7], map[8 := 7], [8], 0) == (HeldShop(0).db, Ok(ORDER))
  {
    OneHold(8);
    CheckoutAllowed();
    SeatReserved();
  }

  lemma SeatCheckedOut()
    ensures Enabled(OpenShop(), CHECKOUT) && Apply(OpenShop(), CHECKOUT) == HeldShop(0)
  {
    OneHold(8);
    SeatReserved();
    CheckoutPasses();
  }

  lemma SeatSwept()
    ensures Apply(HeldShop(601), Sweep) == ReleasedShop()
  {
    var db := HeldShop(601).db;
    assert Overdue(db, 601) == {8};
    assert SeatsOf(db, {8}) == {7} by { assert db.reservations[8].seat == 7; }
    assert ExpireOverdue(db, 601).reservations == ReleasedShop().db.reservations;
    assert ExpireOverdue(db, 601).seats == ReleasedShop().db.seats;
  }

  /** The steps lead from one world to the other. */
  predicate RunsTo(w: World, steps: seq<Step>, end: World) {
    ValidRun(w, steps) && Run(w, steps) == end
  }

  lemma RunStep(w: World, st: Step, after: World, rest: seq<Step>)
    requires Enabled(w, st) && Apply(w, st) == after && ValidRun(after, rest)
    ensures ValidRun(w, [st] + rest) && Run(w, [st] + rest) == Run(after, rest)
  {
  }

  lemma HeldRun()
    ensures var steps := [Tick(601)] + ([Sweep] + []);
            ValidRun(HeldShop(0), steps) && Run(HeldShop(0), steps) == ReleasedShop()
  {
    SeatSwept();
    RunStep(HeldShop(601), Sweep, ReleasedShop(), []);
    RunStep(HeldShop(0), Tick(601), HeldShop(601), [Sweep] + []);
  }

  lemma OpenRun()
    ensures var steps := [CHECKOUT] + ([Tick(601)] + ([Sweep] + []));
            ValidRun(OpenShop(), steps) && Run(OpenShop(), steps) == ReleasedShop()
  {
    HeldRun();
    SeatCheckedOut();
    RunStep(OpenShop(), CHECKOUT, HeldShop(0), [Tick(601)] + ([Sweep] + []));
  }

  lemma ReleasedRunReaches()
    ensures Initial(EmptyShop()) && ValidRun(EmptyShop(), ReleasedRun()) &&
            Run(EmptyShop(), ReleasedRun()) == ReleasedShop()
  {
    OpenRun();
    SeatAdded();
    RunStep(EmptyShop(), BulkCreate(5, {7}), OpenShop(), [CHECKOUT] + ([Tick(601)] + ([Sweep] + [])));
  }

  /**
   * The witness: in the state this run reaches every guard of a reservation of the seat passes, and only the index
   * refuses it. With the refused hold inserted anyway, the order's late expiry event leaves it PENDING on an AVAILABLE
   * seat.
   */
  lemma IndexIsNeeded(ev: WebhookEvent)
    requires ev.kind == CheckoutExpired && ev.metadata == OrderMetadata(ORDER)
    ensures ValidRun(EmptyShop(), ReleasedRun())
    ensures var w := Run(EmptyShop(), ReleasedRun());
            var holds := map[9 := 7];
            && FreshHolds(w.db, {7}, holds) && Echoes(w.orders, ev.metadata)
            && ReserveCheck(w.db, {7}) == None
            && CreateReservations(w.db, 2, {7}, holds, w.now) == (w.db, Err(Rejected))
            && Agree(w.db) && !Agree(ReleaseHold(InsertHolds(w.db, 2, holds, w.now), ev))
  {
    ReleasedRunReaches();
    ReleasedShopInv();
    OnlyIndexRefuses();
    assert OrderMetadata(ReleasedShop().orders[0]) == ev.metadata;
    OneHold(9);
    StaleReleaseBreaksSecondHold(ReleasedShop(), 0, 2, map[9 := 7], ev, 9);
  }

  lemma ReleasedShopInv()
    ensures Inv(ReleasedShop())
  {
    ReleasedRunReaches();
    InitialInv(EmptyShop());
    InvariantOverRuns(EmptyShop(), ReleasedRun());
  }

  lemma OnlyIndexRefuses()
    ensures var (db, holds) := (ReleasedShop().db, map[9 := 7]);
            && FreshHolds(db, {7}, holds) && ReserveCheck(db, {7}) == None
            && CreateReservations(db, 2, {7}, holds, ReleasedShop().now) == (db, Err(Rejected))
  {
    OneHold(9);
    assert ReleasedShop().db.reservations[8].seat == 7;
  }
}
