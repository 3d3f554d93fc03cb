/** Concurrent and repeated provider deliveries: look-up, marker insert and handling as separate steps. */
module Deliveries {
  import opened Text
  import opened Tables
  import opened Booking

  /** A delivery with the row order and ticket ids its handler will meet. */
  datatype Delivery = Delivery(ev: WebhookEvent, rows: seq<Id>, ids: seq<Id>)

  // ---------------------------------------------------------------- one after the other

  predicate ValidDeliveries(db: Db, ds: seq<Delivery>)
    decreases |ds|
  {
    ds != [] ==>
      && RowsFor(db, ds[0].ev, ds[0].rows, ds[0].ids)
      && ValidDeliveries(HandleWebhook(db, ds[0].ev, ds[0].rows, ds[0].ids), ds[1..])
  }

  function DeliverAll(db: Db, ds: seq<Delivery>): Db
    requires ValidDeliveries(db, ds)
    decreases |ds|
  {
    if ds == [] then db else DeliverAll(HandleWebhook(db, ds[0].ev, ds[0].rows, ds[0].ids), ds[1..])
  }

  /** Only the first delivery of each event id not seen before. */
  function FirstOccurrences(seen: set<Id>, ds: seq<Delivery>): seq<Delivery>
    decreases |ds|
  {
    if ds == [] then []
    else if ds[0].ev.id in seen then FirstOccurrences(seen, ds[1..])
    else [ds[0]] + FirstOccurrences(seen + {ds[0].ev.id}, ds[1..])
  }

  /** Ticket generation does not look at the markers. */
  lemma {:induction false} IssueIgnoresMarkers(db: Db, marks: set<Id>, user: Id, event: Id, rows: seq<Id>, ids: seq<Id>)
    requires |rows| == |ids| && forall r :: r in rows ==> r in db.reservations
    ensures IssueTickets(db.(processed := marks), user, event, rows, ids) ==
            IssueTickets(db, user, event, rows, ids).(processed := marks)
    decreases |rows|
  {
    if rows != [] {
      var seat := db.reservations[rows[0]].seat;
      assert Ticketed(db.(processed := marks), rows[0]) == Ticketed(db, rows[0]);
      assert SeatTicketed(db.(processed := marks), seat) == SeatTicketed(db, seat);
      var next := db.(tickets := db.tickets[ids[0] := Ticket(rows[0], user, event, seat, false, false)]);
      IssueIgnoresMarkers(next, marks, user, event, rows[1..], ids[1..]);
      assert next.(processed := marks) ==
        db.(processed := marks).(tickets := db.tickets[ids[0] := Ticket(rows[0], user, event, seat, false, false)]);
    }
  }

  lemma PaymentIgnoresMarkers(db: Db, marks: set<Id>, ev: WebhookEvent, rows: seq<Id>, ids: seq<Id>)
    requires RowsFor(db, ev, rows, ids)
    ensures OnPaymentSucceeded(db.(processed := marks), ev, rows, ids) ==
            OnPaymentSucceeded(db, ev, rows, ids).(processed := marks)
  {
    assert forall r :: r in rows ==> r in Elements(rows);
    var paid := RecordPayment(db, ev);
    if ev.metadata.userId.Some? && ev.metadata.eventId.Some? {
      IssueIgnoresMarkers(paid, marks, ev.metadata.userId.value, ev.metadata.eventId.value, rows, ids);
    }
    assert RecordPayment(db.(processed := marks), ev) == paid.(processed := marks);
  }

  /** A handler neither reads nor writes the markers. */
  lemma HandlerIgnoresMarkers(db: Db, marks: set<Id>, ev: WebhookEvent, rows: seq<Id>, ids: seq<Id>)
    requires RowsFor(db, ev, rows, ids)
    ensures HandleEvent(db.(processed := marks), ev, rows, ids) == HandleEvent(db, ev, rows, ids).(processed := marks)
  {
    if ev.kind == CollectionSucceeded { PaymentIgnoresMarkers(db, marks, ev, rows, ids); }
  }

  lemma WebhookMarks(db: Db, ev: WebhookEvent, rows: seq<Id>, ids: seq<Id>)
    requires RowsFor(db, ev, rows, ids)
    ensures HandleWebhook(db, ev, rows, ids).processed == db.processed + {ev.id}
    ensures ev.id in db.processed ==> HandleWebhook(db, ev, rows, ids) == db
  {
    var marks := db.processed + {ev.id};
    HandlerIgnoresMarkers(db.(processed := marks), marks, ev, rows, ids);
    assert db.(processed := marks).(processed := marks) == db.(processed := marks);
    if ev.id in db.processed { assert marks == db.processed; }
  }

  /** Delivering a list, duplicates and all, ends in the same state as delivering each event's first occurrence. */
  lemma {:induction false} DuplicatesChangeNothing(db: Db, ds: seq<Delivery>)
    requires ValidDeliveries(db, ds)
    ensures ValidDeliveries(db, FirstOccurrences(db.processed, ds))
    ensures DeliverAll(db, FirstOccurrences(db.processed, ds)) == DeliverAll(db, ds)
    decreases |ds|
  {
    if ds != [] {
      WebhookMarks(db, ds[0].ev, ds[0].rows, ds[0].ids);
      DuplicatesChangeNothing(HandleWebhook(db, ds[0].ev, ds[0].rows, ds[0].ids), ds[1..]);
    }
  }

  // ---------------------------------------------------------------- interleaved

  /** Where a delivery stands: Skipped found the marker, Clashed lost the race for it. */
  datatype Phase = Waiting | LookedUp | Marked | Handled | Skipped | Clashed

  /** Concurrent deliveries of `evs`; `handled` lists the completed handlings in order. */
  datatype Floor = Floor(db: Db, phases: seq<Phase>, handled: seq<Delivery>)

  datatype Move = LookUp(d: nat) | InsertMarker(d: nat) | Handle(d: nat, rows: seq<Id>, ids: seq<Id>)

  predicate CanMove(evs: seq<WebhookEvent>, f: Floor, m: Move) {
    && |f.phases| == |evs| && m.d < |evs|
    && match m
       case LookUp(d) => f.phases[d] == Waiting
       case InsertMarker(d) => f.phases[d] == LookedUp
       case Handle(d, rows, ids) => f.phases[d] == Marked && RowsFor(f.db, evs[d], rows, ids)
  }

  function DoMove(evs: seq<WebhookEvent>, f: Floor, m: Move): Floor
    requires CanMove(evs, f, m)
  {
    match m
    case LookUp(d) =>
      f.(phases := f.phases[d := if evs[d].id in f.db.processed then Skipped else LookedUp])
    case InsertMarker(d) =>
      if evs[d].id in f.db.processed then f.(phases := f.phases[d := Clashed])
      else f.(db := f.db.(processed := f.db.processed + {evs[d].id}), phases := f.phases[d := Marked])
    case Handle(d, rows, ids) =>
      f.(db := HandleEvent(f.db, evs[d], rows, ids), phases := f.phases[d := Handled],
         handled := f.handled + [Delivery(evs[d], rows, ids)])
  }

  predicate ValidMoves(evs: seq<WebhookEvent>, f: Floor, ms: seq<Move>)
    decreases |ms|
  {
    ms != [] ==> CanMove(evs, f, ms[0]) && ValidMoves(evs, DoMove(evs, f, ms[0]), ms[1..])
  }

  function RunMoves(evs: seq<WebhookEvent>, f: Floor, ms: seq<Move>): Floor
    requires ValidMoves(evs, f, ms)
    decreases |ms|
  {
    if ms == [] then f else RunMoves(evs, DoMove(evs, f, ms[0]), ms[1..])
  }

  predicate HasMarker(p: Phase) { p == Marked || p == Handled }

  /** Each marker that is not from before was inserted by exactly one delivery. */
  ghost predicate MarkersOwned(evs: seq<WebhookEvent>, before: set<Id>, f: Floor) {
    && |f.phases| == |evs|
    && before <= f.db.processed
    && (forall d :: 0 <= d < |evs| && HasMarker(f.phases[d]) ==> evs[d].id in f.db.processed && evs[d].id !in before)
    && (forall d, e ::
          0 <= d < e < |evs| && evs[d].id == evs[e].id && HasMarker(f.phases[d]) ==> !HasMarker(f.phases[e]))
    && (forall id ::
          id in f.db.processed && id !in before ==>
          exists d :: 0 <= d < |evs| && evs[d].id == id && HasMarker(f.phases[d]))
    && (forall d ::
          0 <= d < |evs| && (f.phases[d] == Skipped || f.phases[d] == Clashed) ==> evs[d].id in f.db.processed)
  }

  lemma MoveKeepsMarkers(evs: seq<WebhookEvent>, before: set<Id>, f: Floor, m: Move)
    requires MarkersOwned(evs, before, f) && CanMove(evs, f, m)
    ensures MarkersOwned(evs, before, DoMove(evs, f, m))
  {
    var after := DoMove(evs, f, m);
    if m.Handle? {
      HandlerIgnoresMarkers(f.db, f.db.processed, evs[m.d], m.rows, m.ids);
      assert f.db.(processed := f.db.processed) == f.db;
    }
    assert forall e :: 0 <= e < |evs| && e != m.d ==> after.phases[e] == f.phases[e];
    forall id | id in after.db.processed && id !in before
      ensures exists d :: 0 <= d < |evs| && evs[d].id == id && HasMarker(after.phases[d])
    {
      if id in f.db.processed {
        var d :| 0 <= d < |evs| && evs[d].id == id && HasMarker(f.phases[d]);
        assert HasMarker(after.phases[d]);
      } else {
        assert HasMarker(after.phases[m.d]);
      }
    }
  }

  lemma {:induction false} MarkersOwnedOverMoves(evs: seq<WebhookEvent>, before: set<Id>, f: Floor, ms: seq<Move>)
    requires MarkersOwned(evs, before, f) && ValidMoves(evs, f, ms)
    ensures MarkersOwned(evs, before, RunMoves(evs, f, ms))
    decreases |ms|
  {
    if ms != [] {
      MoveKeepsMarkers(evs, before, f, ms[0]);
      MarkersOwnedOverMoves(evs, before, DoMove(evs, f, ms[0]), ms[1..]);
    }
  }

  function Opening(evs: seq<WebhookEvent>, db: Db): Floor {
    Floor(db, seq(|evs|, _ => Waiting), [])
  }

  predicate Settled(p: Phase) { p == Handled || p == Skipped || p == Clashed }

  /**
   * At most once, and once all is settled exactly once: under any interleaving at most one delivery of an event id
   * passes the marker, and when every delivery has come to rest each id that was new has been handled by exactly one.
   */
  lemma HandledExactlyOnce(evs: seq<WebhookEvent>, db: Db, ms: seq<Move>, d: nat)
    requires ValidMoves(evs, Opening(evs, db), ms) && d < |evs|
    ensures var f := RunMoves(evs, Opening(evs, db), ms);
            && |f.phases| == |evs|
            && (forall e, e' ::
                  0 <= e < e' < |evs| && evs[e].id == evs[e'].id ==>
                  !(HasMarker(f.phases[e]) && HasMarker(f.phases[e'])))
            && (evs[d].id in db.processed ==> !HasMarker(f.phases[d]))
            && ((forall e :: 0 <= e < |evs| ==> Settled(f.phases[e])) && evs[d].id !in db.processed ==>
                exists e :: 0 <= e < |evs| && evs[e].id == evs[d].id && f.phases[e] == Handled)
  {
    MarkersOwnedOverMoves(evs, db.processed, Opening(evs, db), ms);
    var f := RunMoves(evs, Opening(evs, db), ms);
    if (forall e :: 0 <= e < |evs| ==> Settled(f.phases[e])) && evs[d].id !in db.processed {
      assert Settled(f.phases[d]);
      assert evs[d].id in f.db.processed;
      var e :| 0 <= e < |evs| && evs[e].id == evs[d].id && HasMarker(f.phases[e]);
      assert Settled(f.phases[e]);
    }
  }

  // ---------------------------------------------------------------- the interleaving is a sequence

  function Ids(ds: seq<Delivery>): set<Id> {
    set i | 0 <= i < |ds| :: ds[i].ev.id
  }

  lemma {:induction false} DeliverOneMore(db: Db, ds: seq<Delivery>, last: Delivery)
    requires ValidDeliveries(db, ds) && RowsFor(DeliverAll(db, ds), last.ev, last.rows, last.ids)
    ensures ValidDeliveries(db, ds + [last])
    ensures DeliverAll(db, ds + [last]) == HandleWebhook(DeliverAll(db, ds), last.ev, last.rows, last.ids)
    decreases |ds|
  {
    if ds == [] {
      assert ds + [last] == [last];
    } else {
      DeliverOneMore(HandleWebhook(db, ds[0].ev, ds[0].rows, ds[0].ids), ds[1..], last);
      assert (ds + [last])[1..] == ds[1..] + [last];
    }
  }

  /** Every logged handling belongs to a delivery that has handled its event. */
  ghost predicate LogOwned(evs: seq<WebhookEvent>, f: Floor) {
    forall i :: 0 <= i < |f.handled| ==> HandledBySome(evs, f.phases, f.handled[i].ev.id)
  }

  ghost predicate HandledBySome(evs: seq<WebhookEvent>, phases: seq<Phase>, id: Id) {
    exists d :: 0 <= d < |evs| && d < |phases| && phases[d] == Handled && evs[d].id == id
  }

  /** The tables are those of delivering, one after the other, what has been handled so far. */
  ghost predicate SequentialTables(db: Db, f: Floor) {
    && ValidDeliveries(db, f.handled)
    && DeliverAll(db, f.handled) == f.db.(processed := db.processed + Ids(f.handled))
  }

  ghost predicate Sequential(evs: seq<WebhookEvent>, db: Db, f: Floor) {
    SequentialTables(db, f) && LogOwned(evs, f)
  }

  lemma HandleKeepsSequence(evs: seq<WebhookEvent>, db: Db, f: Floor, m: Move)
    requires MarkersOwned(evs, db.processed, f) && Sequential(evs, db, f) && CanMove(evs, f, m) && m.Handle?
    ensures SequentialTables(db, DoMove(evs, f, m))
  {
    var ev := evs[m.d];
    var last := Delivery(ev, m.rows, m.ids);
    var marks := db.processed + Ids(f.handled);
    DeliverOneMore(db, f.handled, last);
    assert ev.id !in marks;
    HandlerIgnoresMarkers(f.db, marks + {ev.id}, ev, m.rows, m.ids);
    assert f.db.(processed := marks).(processed := marks + {ev.id}) == f.db.(processed := marks + {ev.id});
    assert Ids(f.handled + [last]) == Ids(f.handled) + {ev.id} by {
      assert (f.handled + [last])[|f.handled|] == last;
      forall id | id in Ids(f.handled) ensures id in Ids(f.handled + [last]) {
        var i :| 0 <= i < |f.handled| && f.handled[i].ev.id == id;
        assert (f.handled + [last])[i].ev.id == id;
      }
    }
    assert db.processed + Ids(f.handled + [last]) == marks + {ev.id};
  }

  lemma MoveKeepsLog(evs: seq<WebhookEvent>, f: Floor, m: Move)
    ensures LogOwned(evs, f) && CanMove(evs, f, m) ==> LogOwned(evs, DoMove(evs, f, m))
  {
  }

  lemma MoveKeepsSequence(evs: seq<WebhookEvent>, db: Db, f: Floor, m: Move)
    requires MarkersOwned(evs, db.processed, f) && Sequential(evs, db, f) && CanMove(evs, f, m)
    ensures Sequential(evs, db, DoMove(evs, f, m))
  {
    MoveKeepsLog(evs, f, m);
    if m.Handle? {
      HandleKeepsSequence(evs, db, f, m);
    }
  }

  lemma {:induction false} SequentialOverMoves(evs: seq<WebhookEvent>, db: Db, f: Floor, ms: seq<Move>)
    requires MarkersOwned(evs, db.processed, f) && Sequential(evs, db, f) && ValidMoves(evs, f, ms)
    ensures Sequential(evs, db, RunMoves(evs, f, ms))
    decreases |ms|
  {
    if ms != [] {
      MoveKeepsMarkers(evs, db.processed, f, ms[0]);
      MoveKeepsSequence(evs, db, f, ms[0]);
      SequentialOverMoves(evs, db, DoMove(evs, f, ms[0]), ms[1..]);
    }
  }

  /** Any interleaving leaves the tables that delivering the handled events one by one, in handling order, leaves. */
  lemma InterleavingIsSequential(evs: seq<WebhookEvent>, db: Db, ms: seq<Move>)
    requires ValidMoves(evs, Opening(evs, db), ms)
    ensures var f := RunMoves(evs, Opening(evs, db), ms);
            ValidDeliveries(db, f.handled) &&
            DeliverAll(db, f.handled) == f.db.(processed := db.processed + Ids(f.handled))
  {
    assert db.processed + Ids([]) == db.processed;
    assert db.(processed := db.processed) == db;
    SequentialOverMoves(evs, db, Opening(evs, db), ms);
  }
}
