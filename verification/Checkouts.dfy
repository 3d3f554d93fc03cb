/** What a checkout tells the payment provider, and what the provider's echo of it means later. */
module Checkouts {
  import opened Text
  import opened Tables
  import opened Booking
  import opened Protocol
  import opened Agreement
  import opened Invariant

  /** The quantity in the product cart. */
  function BilledQuantity(o: Order): nat {
    |o.seats|
  }

  /** When a checkout succeeds, whatever the order of its guards. */
  ghost predicate Sellable(db: Db, user: Id, section: Id, chosen: seq<Id>) {
    && section in db.sections && db.sections[section].productId.Some?
    && db.sections[section].event in db.events && db.events[db.sections[section].event].status == Published
    && chosen != [] && NoDuplicates(chosen) && user in db.users
    && (forall s :: s in chosen ==> s in db.seats && db.seats[s].section == section && db.seats[s].status == Available)
    && (forall r :: r in db.reservations ==> db.reservations[r].seat !in chosen)
  }

  lemma FoundCount(db: Db, chosen: seq<Id>)
    ensures |FoundSeats(db, chosen)| == |chosen| <==> NoDuplicates(chosen) && forall s :: s in chosen ==> s in db.seats
  {
    DistinctCount(chosen);
    AllFoundIff(Elements(chosen), db.seats.Keys);
    SubsetSize(FoundSeats(db, chosen), Elements(chosen));
    assert FoundSeats(db, chosen) == Elements(chosen) * db.seats.Keys;
    assert forall s :: s in chosen <==> s in Elements(chosen);
  }

  /** Fresh holds exist exactly for non-empty choices. */
  lemma HoldsForChosen(db: Db, chosen: seq<Id>, holds: map<Id, Id>, listing: seq<Id>)
    requires FreshHolds(db, Elements(chosen), holds) && Elements(listing) == holds.Keys
    ensures listing == [] <==> chosen == []
  {
    assert forall r :: r in holds ==> holds[r] in Elements(chosen);
    assert forall r :: r in listing ==> r in Elements(listing);
    if listing != [] { assert listing[0] in listing && holds[listing[0]] in Elements(chosen); }
    if chosen != [] {
      assert chosen[0] in Elements(chosen);
      var r :| r in holds && holds[r] == chosen[0];
      assert r in Elements(listing);
    }
  }

  lemma ReservableChosen(db: Db, user: Id, chosen: seq<Id>, holds: map<Id, Id>, now: int)
    ensures CreateReservations(db, user, Elements(chosen), holds, now).1.Ok? <==>
            && (forall s :: s in chosen ==> s in db.seats && db.seats[s].status == Available && OnSale(db, s))
            && (forall r :: r in db.reservations ==> db.reservations[r].seat !in chosen)
            && (chosen != [] ==> user in db.users)
  {
    ReserveSucceeds(db, user, Elements(chosen), holds, now);
    assert chosen != [] ==> chosen[0] in Elements(chosen);
  }

  lemma CheckoutCheckPassesIff(db: Db, section: Id, chosen: seq<Id>)
    ensures CheckoutCheck(db, section, chosen) == None <==>
            && section in db.sections && db.sections[section].productId.Some?
            && db.sections[section].event in db.events && db.events[db.sections[section].event].status == Published
            && NoDuplicates(chosen)
            && (forall s ::
                  s in chosen ==> s in db.seats && db.seats[s].section == section && db.seats[s].status == Available)
  {
    FoundCount(db, chosen);
  }

  /** A checkout succeeds exactly for distinct, never-held, available seats of one published, purchasable section. */
  lemma CheckoutSucceedsIff(db: Db, user: Id, section: Id, chosen: seq<Id>, holds: map<Id, Id>, listing: seq<Id>,
                            now: int)
    requires FreshHolds(db, Elements(chosen), holds) && Elements(listing) == holds.Keys
    ensures CreateCheckout(db, user, section, chosen, holds, listing, now).1.Ok? <==>
            Sellable(db, user, section, chosen)
  {
    CheckoutCheckPassesIff(db, section, chosen);
    HoldsForChosen(db, chosen, holds, listing);
    ReservableChosen(db, user, chosen, holds, now);
  }

  /**
   * Every answer of a checkout, told from the tables. An empty choice of seats passes the guards and fails later, on
   * the missing user or on the first reservation that is not there.
   */
  lemma CheckoutAnswers(db: Db, user: Id, section: Id, chosen: seq<Id>, holds: map<Id, Id>, listing: seq<Id>, now: int)
    requires FreshHolds(db, Elements(chosen), holds) && Elements(listing) == holds.Keys
    ensures var result := CreateCheckout(db, user, section, chosen, holds, listing, now).1;
            var offered :=
              && section in db.sections && db.sections[section].productId.Some?
              && db.sections[section].event in db.events && db.events[db.sections[section].event].status == Published;
            var found := NoDuplicates(chosen) && forall s :: s in chosen ==> s in db.seats;
            var inside := forall s :: s in chosen && s in db.seats ==> db.seats[s].section == section;
            var free := forall s :: s in chosen && s in db.seats ==> db.seats[s].status == Available;
            var held := exists r :: r in db.reservations && db.reservations[r].seat in chosen;
            && (result.Ok? || result.error in {NotFound, BadRequest, Conflict, Rejected, Crash})
            && (result == Err(NotFound) <==>
                section !in db.sections || (offered && (!found || (chosen == [] && user !in db.users))))
            && (result == Err(BadRequest) <==> section in db.sections && (!offered || (found && !inside)))
            && (result == Err(Conflict) <==> offered && found && inside && !free)
            && (result == Err(Rejected) <==>
                offered && found && inside && free && chosen != [] && (held || user !in db.users))
            && (result == Err(Crash) <==> offered && chosen == [] && user in db.users)
            && (result.Ok? ==> result.value == Order(user, section, db.sections[section].event, listing, chosen))
  {
    FoundCount(db, chosen);
    HoldsForChosen(db, chosen, holds, listing);
    assert forall s :: s in chosen <==> s in Elements(chosen);
    assert chosen != [] ==> chosen[0] in Elements(chosen);
  }

  /** A list with a repeated seat is refused, as some seat not found once the section itself is fine. */
  lemma DuplicateSeatsRefused(db: Db, user: Id, section: Id, chosen: seq<Id>, holds: map<Id, Id>, listing: seq<Id>,
                              now: int)
    requires !NoDuplicates(chosen)
    requires section in db.sections && db.sections[section].productId.Some?
    requires db.sections[section].event in db.events && db.events[db.sections[section].event].status == Published
    ensures CreateCheckout(db, user, section, chosen, holds, listing, now) == (db, Err(NotFound))
  {
    FoundCount(db, chosen);
  }

  lemma IdListSize(db: Db, o: Order)
    requires Agree(db) && OrderOk(db, o)
    ensures |ReservationsIn(db, OrderMetadata(o))| == |SeatsIn(db, OrderMetadata(o))| == BilledQuantity(o)
  {
    MetadataRoundTrip(db, o);
    DistinctCount(o.reservations);
    DistinctCount(o.seats);
  }

  /**
   * The metadata survives its round trip through the provider: the lists parse back to the minted ids, in any later
   * state they select exactly the order's reservations, whose seats are exactly the seats they select, and the billed
   * quantity is the number of reservations.
   */
  lemma MetadataMeansOrder(w: World, steps: seq<Step>, i: nat)
    requires Inv(w) && ValidRun(w, steps) && i < |Run(w, steps).orders|
    ensures var db := Run(w, steps).db;
            var o := Run(w, steps).orders[i];
            var m := OrderMetadata(o);
            && Split(m.reservationIds) == IdTexts(o.reservations) && Split(m.seatIds) == IdTexts(o.seats)
            && ReservationsIn(db, m) == Elements(o.reservations)
            && SeatsIn(db, m) == SeatsOf(db, ReservationsIn(db, m))
            && |ReservationsIn(db, m)| == BilledQuantity(o) == |o.seats|
            && m.userId == Some(o.user) && m.sectionId == Some(o.section) && m.eventId == Some(o.event)
            && (forall r :: r in ReservationsIn(db, m) ==> Some(db.reservations[r].user) == m.userId)
  {
    InvariantOverRuns(w, steps);
    var db := Run(w, steps).db;
    var o := Run(w, steps).orders[i];
    MetadataRoundTrip(db, o);
    IdListRoundTrip(o.reservations);
    IdListRoundTrip(o.seats);
    IdListSize(db, o);
  }

  /** The section row still names the event and a product, and the seats are still in the section. */
  predicate StillOffered(db: Db, section: Id, row: Section, chosen: seq<Id>) {
    && section in db.sections && db.sections[section].event == row.event && db.sections[section].productId.Some?
    && forall s :: s in chosen && s in db.seats ==> db.seats[s].section == section
  }

  lemma ReservedOffered(db: Db, user: Id, section: Id, row: Section, chosen: seq<Id>, holds: map<Id, Id>, now: int)
    requires CreateReservations(db, user, Elements(chosen), holds, now).1.Ok? && chosen != [] && NoDuplicates(chosen)
    ensures StillOffered(db, section, row, chosen) ==>
              CheckoutCheck(db, section, chosen) == None && db.sections[section].event == row.event
    ensures CheckoutCheck(db, section, chosen) == None && db.sections[section].event == row.event ==>
              StillOffered(db, section, row, chosen)
  {
    ReserveSucceeds(db, user, Elements(chosen), holds, now);
    assert forall s :: s in chosen <==> s in Elements(chosen);
    FoundCount(db, chosen);
    assert chosen[0] in Elements(chosen) && OnSale(db, chosen[0]);
  }

  /**
   * A checkout checks at one moment and reserves at a later one. If the reservation fails nothing has changed; if it
   * succeeds, the checkout has done exactly what a whole one would do at that later moment if and only if the section
   * is still offered then.
   */
  lemma {:induction false} SplitCheckoutIsWholeIff(w: World, steps: seq<Step>, user: Id, section: Id,
                                                   chosen: seq<Id>, holds: map<Id, Id>, listing: seq<Id>)
    requires Inv(w) && ValidRun(w, steps) && CheckoutCheck(w.db, section, chosen) == None && chosen != []
    requires FreshHolds(Run(w, steps).db, Elements(chosen), holds) && Elements(listing) == holds.Keys
    ensures var (end, row) := (Run(w, steps), w.db.sections[section]);
            var split := ReserveAndMint(end.db, user, section, row, chosen, holds, listing, end.now);
            && (split.1.Err? ==> split.0 == end.db)
            && (split.1.Ok? ==>
                  (split == CreateCheckout(end.db, user, section, chosen, holds, listing, end.now) <==>
                   StillOffered(end.db, section, row, chosen)))
  {
    var (end, row) := (Run(w, steps), w.db.sections[section]);
    CheckoutCheckPassesIff(w.db, section, chosen);
    HoldsForChosen(end.db, chosen, holds, listing);
    SplitAt(end.db, user, section, row, chosen, holds, listing, end.now);
  }

  lemma SplitAt(db: Db, user: Id, section: Id, row: Section, chosen: seq<Id>, holds: map<Id, Id>, listing: seq<Id>,
                now: int)
    requires FreshHolds(db, Elements(chosen), holds) && chosen != [] && NoDuplicates(chosen) && listing != []
    ensures var split := ReserveAndMint(db, user, section, row, chosen, holds, listing, now);
            && (split.1.Err? ==> split.0 == db)
            && (split.1.Ok? ==>
                  (split == CreateCheckout(db, user, section, chosen, holds, listing, now) <==>
                   StillOffered(db, section, row, chosen)))
  {
    var reserved := CreateReservations(db, user, Elements(chosen), holds, now);
    if reserved.1.Ok? {
      ReserveSucceeds(db, user, Elements(chosen), holds, now);
      assert chosen[0] in Elements(chosen);
      ReservedOffered(db, user, section, row, chosen, holds, now);
    }
  }

  /** Distinct checkouts have disjoint reservations and distinct references. */
  lemma OrdersAreDistinct(w: World, steps: seq<Step>, i: nat, j: nat)
    requires Inv(w) && ValidRun(w, steps) && i < j < |Run(w, steps).orders|
    ensures var o, p := Run(w, steps).orders[i], Run(w, steps).orders[j];
            && Elements(o.reservations) !! Elements(p.reservations)
            && Elements(o.seats) !! Elements(p.seats)
            && o.reservations != [] && p.reservations != [] && OrderReference(o) != OrderReference(p)
  {
    InvariantOverRuns(w, steps);
    var end := Run(w, steps);
    var o, p := end.orders[i], end.orders[j];
    assert OrderOk(end.db, o) && OrderOk(end.db, p);
    forall s | s in Elements(o.seats) ensures s !in Elements(p.seats) {
      SeatInOneOrder(end.db, o, p, s);
    }
    assert o.reservations[0] in o.reservations && p.reservations[0] in p.reservations;
    if OrderReference(o) == OrderReference(p) {
      assert OrderReference(o)[6..] == IdText(o.reservations[0]) && OrderReference(p)[6..] == IdText(p.reservations[0]);
      DecimalInjective(o.reservations[0], p.reservations[0]);
    }
  }

  lemma SeatInOneOrder(db: Db, o: Order, p: Order, s: Id)
    requires Agree(db) && OrderOk(db, o) && OrderOk(db, p) && s in o.seats
    requires forall r :: r in o.reservations ==> r !in p.reservations
    ensures s !in p.seats
  {
    assert s in Elements(o.seats);
    var r :| r in Elements(o.reservations) && r in db.reservations && db.reservations[r].seat == s;
    assert Holds(db.reservations, r, s);
    if s in p.seats {
      assert s in Elements(p.seats);
      var q :| q in Elements(p.reservations) && q in db.reservations && db.reservations[q].seat == s;
      assert Holds(db.reservations, q, s);
    }
  }
}
