/** The database as the services hold it: one mutable field per table. */
module Store {
  import opened Text
  import opened Tables

  /** The rows a query returns, in database order: each of the wanted rows once. */
  predicate Returns(rows: seq<Id>, wanted: set<Id>) {
    NoDuplicates(rows) && Elements(rows) == wanted
  }

  /** A query by id, whose order the database chooses. */
  method Find(wanted: set<Id>) returns (rows: seq<Id>)
    ensures Returns(rows, wanted)
  {
    rows := [];
    var rest := wanted;
    while rest != {}
      invariant NoDuplicates(rows) && Elements(rows) + rest == wanted && Elements(rows) !! rest
      decreases rest
    {
      var x :| x in rest;
      assert x !in Elements(rows);
      rows := rows + [x];
      rest := rest - {x};
    }
  }

  lemma {:induction false} NewestExists(created: map<Id, int>, rest: set<Id>)
    requires rest != {} && rest <= created.Keys
    ensures exists x :: Newest(created, rest, x)
    decreases rest
  {
    var x :| x in rest;
    if rest == {x} {
      assert Newest(created, rest, x);
    } else {
      NewestExists(created, rest - {x});
      var y :| Newest(created, rest - {x}, y);
      assert Newest(created, rest, if created[y] >= created[x] then y else x);
    }
  }

  predicate Newest(created: map<Id, int>, rest: set<Id>, x: Id) {
    x in rest && rest <= created.Keys && forall y :: y in rest ==> created[y] <= created[x]
  }

  predicate NewestFirst(rows: seq<Id>, created: map<Id, int>) {
    (forall r :: r in rows ==> r in created) &&
    forall i, j :: 0 <= i < j < |rows| ==> created[rows[i]] >= created[rows[j]]
  }

  /** A query ordered by creation, newest first; rows of one moment in any order. */
  method FindNewestFirst(created: map<Id, int>) returns (rows: seq<Id>)
    ensures Returns(rows, created.Keys) && NewestFirst(rows, created)
  {
    rows := [];
    var rest := created.Keys;
    while rest != {}
      invariant NoDuplicates(rows) && Elements(rows) + rest == created.Keys && Elements(rows) !! rest
      invariant NewestFirst(rows, created)
      invariant forall x, y :: x in rows && y in rest ==> created[x] >= created[y]
      decreases rest
    {
      NewestExists(created, rest);
      var x :| Newest(created, rest, x);
      assert x !in Elements(rows);
      rows := rows + [x];
      rest := rest - {x};
    }
  }

  class Database {
    var users: set<Id>
    var events: map<Id, EventRow>
    var sections: map<Id, Section>
    var seats: map<Id, Seat>
    var reservations: map<Id, Reservation>
    var payments: seq<Payment>
    var tickets: map<Id, Ticket>
    var processed: set<Id>

    function Contents(): Db
      reads this
    {
      Db(users, events, sections, seats, reservations, payments, tickets, processed)
    }

    constructor (db: Db)
      ensures Contents() == db
    {
      users, events, sections, seats := db.users, db.events, db.sections, db.seats;
      reservations, payments, tickets, processed := db.reservations, db.payments, db.tickets, db.processed;
    }
  }
}
