/**
 * Ticket generation one save at a time: the payments of one order write its tickets row by row, outside any
 * transaction, while refunds of the order come in between.
 */
module TicketRaces {
  import opened Text
  import opened Tables

  /** A ticket row: when it was saved, and its refund flag. */
  datatype Note = Note(savedAt: nat, isRefunded: bool)

  /**
   * One run of generation: the order's reservations as its query returned them, how many it has ticketed, whether it
   * threw.
   */
  datatype Generation = Generation(rows: seq<Id>, next: nat, threw: bool)

  /**
   * The order's tickets by reservation, the generations started, the moments of its refunds, and the number of steps
   * taken.
   */
  datatype Desk = Desk(tickets: map<Id, Note>, gens: seq<Generation>, refunds: seq<nat>, clock: nat)

  datatype Move = Start(rows: seq<Id>) | SaveNext(g: nat) | Refund

  predicate Running(g: Generation) {
    !g.threw && g.next < |g.rows|
  }

  predicate CanMove(order: set<Id>, d: Desk, m: Move) {
    match m
    case Start(rows) => NoDuplicates(rows) && Elements(rows) == order
    case SaveNext(g) => g < |d.gens| && Running(d.gens[g])
    case Refund => true
  }

  function Refunded(tickets: map<Id, Note>): map<Id, Note> {
    map r | r in tickets :: tickets[r].(isRefunded := true)
  }

  /** A save that would give a reservation a second ticket breaks the unique index, and the generation ends there. */
  function DoMove(order: set<Id>, d: Desk, m: Move): Desk
    requires CanMove(order, d, m)
  {
    match m
    case Start(rows) => d.(gens := d.gens + [Generation(rows, 0, false)], clock := d.clock + 1)
    case SaveNext(k) =>
      var g := d.gens[k];
      var r := g.rows[g.next];
      if r in d.tickets then d.(gens := d.gens[k := g.(threw := true)], clock := d.clock + 1)
      else
        d.(tickets := d.tickets[r := Note(d.clock, false)], gens := d.gens[k := g.(next := g.next + 1)],
           clock := d.clock + 1)
    case Refund => d.(tickets := Refunded(d.tickets), refunds := d.refunds + [d.clock], clock := d.clock + 1)
  }

  predicate ValidMoves(order: set<Id>, d: Desk, ms: seq<Move>)
    decreases |ms|
  {
    ms != [] ==> CanMove(order, d, ms[0]) && ValidMoves(order, DoMove(order, d, ms[0]), ms[1..])
  }

  function RunMoves(order: set<Id>, d: Desk, ms: seq<Move>): Desk
    requires ValidMoves(order, d, ms)
    decreases |ms|
  {
    if ms == [] then d else RunMoves(order, DoMove(order, d, ms[0]), ms[1..])
  }

  const NO_TICKETS := Desk(map[], [], [], 0)

  // ---------------------------------------------------------------- which tickets a refund reaches

  ghost predicate RefundAfter(d: Desk, at: nat) {
    exists k :: 0 <= k < |d.refunds| && d.refunds[k] > at
  }

  ghost predicate Dated(d: Desk) {
    && (forall k :: 0 <= k < |d.refunds| ==> d.refunds[k] < d.clock)
    && (forall r :: r in d.tickets ==>
          d.tickets[r].savedAt < d.clock && (d.tickets[r].isRefunded <==> RefundAfter(d, d.tickets[r].savedAt)))
  }

  lemma MoveDated(order: set<Id>, d: Desk, m: Move)
    requires CanMove(order, d, m) && Dated(d)
    ensures Dated(DoMove(order, d, m))
  {
    var after := DoMove(order, d, m);
    if m.Refund? {
      assert after.refunds[|d.refunds|] == d.clock;
    } else {
      forall at: nat ensures RefundAfter(after, at) <==> RefundAfter(d, at) {}
    }
  }

  lemma {:induction false} AlwaysDated(order: set<Id>, d: Desk, ms: seq<Move>)
    requires ValidMoves(order, d, ms) && Dated(d)
    ensures Dated(RunMoves(order, d, ms))
    decreases |ms|
  {
    if ms != [] {
      MoveDated(order, d, ms[0]);
      AlwaysDated(order, DoMove(order, d, ms[0]), ms[1..]);
    }
  }

  /**
   * A ticket is refunded if and only if a refund of the order came after that ticket was saved: row by row, not order
   * by order.
   */
  lemma RefundedIff(order: set<Id>, ms: seq<Move>, r: Id)
    requires ValidMoves(order, NO_TICKETS, ms) && r in RunMoves(order, NO_TICKETS, ms).tickets
    ensures var d := RunMoves(order, NO_TICKETS, ms);
            d.tickets[r].isRefunded <==> exists k :: 0 <= k < |d.refunds| && d.refunds[k] > d.tickets[r].savedAt
  {
    AlwaysDated(order, NO_TICKETS, ms);
    assert RefundAfter(RunMoves(order, NO_TICKETS, ms), RunMoves(order, NO_TICKETS, ms).tickets[r].savedAt) ==
      RunMoves(order, NO_TICKETS, ms).tickets[r].isRefunded;
  }

  // ---------------------------------------------------------------- which reservations get a ticket

  /** Some generation got past the reservation. */
  ghost predicate Passed(gens: seq<Generation>, r: Id) {
    exists k, i :: 0 <= k < |gens| && 0 <= i < gens[k].next && i < |gens[k].rows| && gens[k].rows[i] == r
  }

  ghost predicate Written(order: set<Id>, d: Desk) {
    && (forall k :: 0 <= k < |d.gens| ==>
          && NoDuplicates(d.gens[k].rows) && Elements(d.gens[k].rows) == order && d.gens[k].next <= |d.gens[k].rows|
          && (d.gens[k].threw ==> Running(d.gens[k].(threw := false)) && d.gens[k].rows[d.gens[k].next] in d.tickets))
    && (forall r :: r in d.tickets <==> Passed(d.gens, r))
  }

  lemma PassedAfter(gens: seq<Generation>, k: nat, g: Generation, r: Id)
    requires k < |gens| && g.rows == gens[k].rows && g.next == gens[k].next + 1 <= |g.rows|
    ensures Passed(gens[k := g], r) <==> Passed(gens, r) || g.rows[gens[k].next] == r
  {
    var after := gens[k := g];
    if j, i :| 0 <= j < |gens| && 0 <= i < gens[j].next && i < |gens[j].rows| && gens[j].rows[i] == r {
      assert after[j].rows[i] == r && i < after[j].next;
    }
    if g.rows[gens[k].next] == r { assert after[k].rows[gens[k].next] == r; }
    if j, i :| 0 <= j < |after| && 0 <= i < after[j].next && i < |after[j].rows| && after[j].rows[i] == r {
      assert gens[j].rows[i] == r;
    }
  }

  lemma PassedSame(gens: seq<Generation>, after: seq<Generation>, r: Id)
    requires |gens| <= |after| &&
            (forall k :: 0 <= k < |gens| ==> after[k].rows == gens[k].rows && after[k].next == gens[k].next)
    requires forall k :: |gens| <= k < |after| ==> after[k].next == 0
    ensures Passed(after, r) <==> Passed(gens, r)
  {
    if j, i :| 0 <= j < |gens| && 0 <= i < gens[j].next && i < |gens[j].rows| && gens[j].rows[i] == r {
      assert after[j].rows[i] == r;
    }
    if j, i :| 0 <= j < |after| && 0 <= i < after[j].next && i < |after[j].rows| && after[j].rows[i] == r {
      assert gens[j].rows[i] == r;
    }
  }

  lemma MoveWritten(order: set<Id>, d: Desk, m: Move)
    requires CanMove(order, d, m) && Written(order, d)
    ensures Written(order, DoMove(order, d, m))
  {
    var after := DoMove(order, d, m);
    if m.SaveNext? && d.gens[m.g].rows[d.gens[m.g].next] !in d.tickets {
      forall r ensures Passed(after.gens, r) <==> Passed(d.gens, r) || d.gens[m.g].rows[d.gens[m.g].next] == r {
        PassedAfter(d.gens, m.g, after.gens[m.g], r);
      }
    } else {
      forall r ensures Passed(after.gens, r) <==> Passed(d.gens, r) { PassedSame(d.gens, after.gens, r); }
    }
  }

  lemma {:induction false} AlwaysWritten(order: set<Id>, d: Desk, ms: seq<Move>)
    requires ValidMoves(order, d, ms) && Written(order, d)
    ensures Written(order, RunMoves(order, d, ms))
    decreases |ms|
  {
    if ms != [] {
      MoveWritten(order, d, ms[0]);
      AlwaysWritten(order, DoMove(order, d, ms[0]), ms[1..]);
    }
  }

  /** A reservation has a ticket if and only if some generation got past it. */
  lemma TicketedIff(order: set<Id>, ms: seq<Move>, r: Id)
    requires ValidMoves(order, NO_TICKETS, ms)
    ensures r in RunMoves(order, NO_TICKETS, ms).tickets <==> Passed(RunMoves(order, NO_TICKETS, ms).gens, r)
  {
    AlwaysWritten(order, NO_TICKETS, ms);
  }

  // ---------------------------------------------------------------- generations that agree on the row order

  /** All generations were given the rows in one order. */
  ghost predicate OneOrder(gens: seq<Generation>, rows: seq<Id>) {
    forall k :: 0 <= k < |gens| ==> gens[k].rows == rows
  }

  predicate Untouched(g: Generation) {
    g.next == 0 && !g.threw
  }

  /**
   * No generation has begun to save; or one is ahead and never throws, and the others can only throw at the first row.
   */
  ghost predicate OneAhead(d: Desk, rows: seq<Id>) {
    || (d.tickets == map[] && forall k :: 0 <= k < |d.gens| ==> Untouched(d.gens[k]))
    || exists w :: Ahead(d, rows, w)
  }

  ghost predicate Ahead(d: Desk, rows: seq<Id>, w: int) {
    && 0 <= w < |d.gens| && 0 < d.gens[w].next <= |rows| && !d.gens[w].threw
    && (forall r :: r in d.tickets <==> r in rows[..d.gens[w].next])
    && (forall k :: 0 <= k < |d.gens| && k != w ==> d.gens[k].next == 0)
  }

  lemma FirstSave(d: Desk, order: set<Id>, rows: seq<Id>, k: nat)
    requires OneOrder(d.gens, rows) && CanMove(order, d, SaveNext(k)) && NoDuplicates(rows)
    requires d.tickets == map[] && forall j :: 0 <= j < |d.gens| ==> Untouched(d.gens[j])
    ensures Ahead(DoMove(order, d, SaveNext(k)), rows, k)
  {
    assert rows[..1] == [rows[0]];
  }

  lemma LaterSave(d: Desk, order: set<Id>, rows: seq<Id>, k: nat, w: int)
    requires OneOrder(d.gens, rows) && CanMove(order, d, SaveNext(k)) && NoDuplicates(rows) && Ahead(d, rows, w)
    ensures Ahead(DoMove(order, d, SaveNext(k)), rows, w)
  {
    var p := d.gens[w].next;
    if k == w {
      assert rows[p] !in rows[..p];
      assert rows[..p + 1] == rows[..p] + [rows[p]];
    } else {
      assert rows[..p][0] == rows[0];
    }
  }

  lemma MoveOneAhead(order: set<Id>, d: Desk, m: Move, rows: seq<Id>)
    requires CanMove(order, d, m) && OneOrder(d.gens, rows) && NoDuplicates(rows) && OneAhead(d, rows)
    requires m.Start? ==> m.rows == rows
    ensures OneOrder(DoMove(order, d, m).gens, rows) && OneAhead(DoMove(order, d, m), rows)
  {
    var after := DoMove(order, d, m);
    if d.tickets == map[] && forall k :: 0 <= k < |d.gens| ==> Untouched(d.gens[k]) {
      if m.SaveNext? { FirstSave(d, order, rows, m.g); }
      assert m.Refund? ==> after.tickets == map[];
    } else {
      var w :| Ahead(d, rows, w);
      if m.SaveNext? { LaterSave(d, order, rows, m.g, w); }
      assert Ahead(after, rows, w);
    }
  }

  predicate StartsWith(ms: seq<Move>, rows: seq<Id>) {
    forall k :: 0 <= k < |ms| && ms[k].Start? ==> ms[k].rows == rows
  }

  lemma {:induction false} AlwaysOneAhead(order: set<Id>, d: Desk, ms: seq<Move>, rows: seq<Id>)
    requires ValidMoves(order, d, ms) && StartsWith(ms, rows) && NoDuplicates(rows)
    requires OneOrder(d.gens, rows) && OneAhead(d, rows)
    ensures OneOrder(RunMoves(order, d, ms).gens, rows) && OneAhead(RunMoves(order, d, ms), rows)
    decreases |ms|
  {
    if ms != [] {
      assert ms[0].Start? ==> ms[0].rows == rows;
      MoveOneAhead(order, d, ms[0], rows);
      assert forall k :: 0 <= k < |ms[1..]| ==> ms[1..][k] == ms[k + 1];
      AlwaysOneAhead(order, DoMove(order, d, ms[0]), ms[1..], rows);
    }
  }

  /**
   * If the database returns the order's rows in one order to every generation, then once all have ended no reservation
   * of the order is left without a ticket, however many payments there were.
   */
  lemma OneOrderTicketsAll(order: set<Id>, ms: seq<Move>, rows: seq<Id>)
    requires ValidMoves(order, NO_TICKETS, ms) && StartsWith(ms, rows) && NoDuplicates(rows) && Elements(rows) == order
    requires var d := RunMoves(order, NO_TICKETS, ms);
            d.gens != [] && forall k :: 0 <= k < |d.gens| ==> !Running(d.gens[k])
    ensures RunMoves(order, NO_TICKETS, ms).tickets.Keys == order
  {
    AlwaysOneAhead(order, NO_TICKETS, ms, rows);
    DistinctCount(rows);
    var d := RunMoves(order, NO_TICKETS, ms);
    if order != {} {
      assert rows != [] && !Running(d.gens[0]);
      var w :| Ahead(d, rows, w);
      assert rows[..d.gens[w].next] == rows;
    } else {
      AlwaysWritten(order, NO_TICKETS, ms);
      forall r ensures r !in d.tickets {}
    }
  }

  // ---------------------------------------------------------------- which row orders can strand a reservation

  /**
   * Where each generation stops: nobody before it saves the same rows, and it ends, or stops at a row another one
   * saved.
   */
  ghost predicate Stops(lists: seq<seq<Id>>, stops: seq<nat>) {
    && |stops| == |lists|
    && (forall k :: 0 <= k < |lists| ==> stops[k] <= |lists[k]|)
    && PrefixesApart(lists, stops)
    && (forall k :: 0 <= k < |lists| && stops[k] < |lists[k]| ==> SavedBySome(lists, stops, lists[k][stops[k]]))
  }

  ghost predicate PrefixesApart(lists: seq<seq<Id>>, stops: seq<nat>)
    requires |stops| == |lists| && forall k :: 0 <= k < |lists| ==> stops[k] <= |lists[k]|
  {
    forall k, l, r :: 0 <= k < l < |lists| && r in lists[k][..stops[k]] ==> r !in lists[l][..stops[l]]
  }

  ghost predicate SavedBySome(lists: seq<seq<Id>>, stops: seq<nat>, r: Id)
    requires |stops| == |lists| && forall k :: 0 <= k < |lists| ==> stops[k] <= |lists[k]|
  {
    exists l :: 0 <= l < |lists| && r in lists[l][..stops[l]]
  }

  /** Generations with these row orders can all end and leave a reservation of the order without a ticket. */
  ghost predicate CanStrand(order: set<Id>, lists: seq<seq<Id>>) {
    exists d :: Reaches(order, NO_TICKETS, d) && Stranded(order, d, lists)
  }

  ghost predicate Stranded(order: set<Id>, d: Desk, lists: seq<seq<Id>>) {
    && |d.gens| == |lists| && (forall k :: 0 <= k < |lists| ==> d.gens[k].rows == lists[k] && !Running(d.gens[k]))
    && exists r :: r in order && r !in d.tickets
  }

  ghost predicate Reaches(order: set<Id>, d: Desk, e: Desk) {
    exists ms :: ValidMoves(order, d, ms) && RunMoves(order, d, ms) == e
  }

  lemma {:induction false} OneMoveMore(order: set<Id>, d: Desk, ms: seq<Move>, m: Move)
    requires ValidMoves(order, d, ms) && CanMove(order, RunMoves(order, d, ms), m)
    ensures ValidMoves(order, d, ms + [m])
    ensures RunMoves(order, d, ms + [m]) == DoMove(order, RunMoves(order, d, ms), m)
    decreases |ms|
  {
    if ms == [] {
      assert ms + [m] == [m] && [m][1..] == [];
    } else {
      OneMoveMore(order, DoMove(order, d, ms[0]), ms[1..], m);
      assert (ms + [m])[1..] == ms[1..] + [m];
    }
  }

  lemma ReachesMore(order: set<Id>, d: Desk, e: Desk, m: Move)
    requires Reaches(order, d, e) && CanMove(order, e, m)
    ensures Reaches(order, d, DoMove(order, e, m))
  {
    var ms :| ValidMoves(order, d, ms) && RunMoves(order, d, ms) == e;
    OneMoveMore(order, d, ms, m);
  }

  /** No two generations save the same row. */
  ghost predicate Apart(gens: seq<Generation>) {
    forall k, l, i, j ::
      0 <= k < l < |gens| && 0 <= i < gens[k].next && i < |gens[k].rows| && 0 <= j < gens[l].next &&
      j < |gens[l].rows| ==>
      gens[k].rows[i] != gens[l].rows[j]
  }

  lemma MoveApart(order: set<Id>, d: Desk, m: Move)
    requires CanMove(order, d, m) && Written(order, d) && Apart(d.gens)
    ensures Apart(DoMove(order, d, m).gens)
  {
    if m.SaveNext? {
      var r := d.gens[m.g].rows[d.gens[m.g].next];
      assert r !in d.tickets ==> !Passed(d.gens, r);
    }
  }

  lemma {:induction false} AlwaysApart(order: set<Id>, d: Desk, ms: seq<Move>)
    requires ValidMoves(order, d, ms) && Written(order, d) && Apart(d.gens)
    ensures Written(order, RunMoves(order, d, ms)) && Apart(RunMoves(order, d, ms).gens)
    decreases |ms|
  {
    if ms != [] {
      MoveWritten(order, d, ms[0]);
      MoveApart(order, d, ms[0]);
      AlwaysApart(order, DoMove(order, d, ms[0]), ms[1..]);
    }
  }

  function Nexts(gens: seq<Generation>): (stops: seq<nat>)
    ensures |stops| == |gens| && forall k :: 0 <= k < |gens| ==> stops[k] == gens[k].next
  {
    seq(|gens|, k requires 0 <= k < |gens| => gens[k].next)
  }

  /** What is ticketed is what some generation saved, told by the row orders and the stops. */
  lemma TicketedByLists(order: set<Id>, d: Desk, lists: seq<seq<Id>>, r: Id)
    requires Written(order, d) && |d.gens| == |lists| && forall k :: 0 <= k < |lists| ==> d.gens[k].rows == lists[k]
    ensures r in d.tickets <==> SavedBySome(lists, Nexts(d.gens), r)
  {
    if k :| 0 <= k < |d.gens| && r in d.gens[k].rows[..d.gens[k].next] {
      assert r in lists[k][..Nexts(d.gens)[k]];
    }
  }

  lemma ApartLists(gens: seq<Generation>, lists: seq<seq<Id>>)
    requires Apart(gens) && |gens| == |lists|
    requires forall k :: 0 <= k < |lists| ==> gens[k].rows == lists[k] && gens[k].next <= |lists[k]|
    ensures PrefixesApart(lists, Nexts(gens))
  {
  }

  /** A stranded reservation shows where the generations stopped. */
  lemma StrandedStops(order: set<Id>, d: Desk, lists: seq<seq<Id>>, r: Id)
    requires Written(order, d) && |d.gens| == |lists|
    requires forall k :: 0 <= k < |lists| ==> d.gens[k].rows == lists[k] && !Running(d.gens[k])
    requires PrefixesApart(lists, Nexts(d.gens))
    requires r in order && r !in d.tickets
    ensures StopsMiss(order, lists, Nexts(d.gens))
  {
    TicketedByLists(order, d, lists, r);
  }

  // The other way: start all, save up to the stops, then let each run into the row it stops at.

  /** Generations with these row orders, at these rows, none of them stopped yet. */
  ghost predicate At(order: set<Id>, d: Desk, lists: seq<seq<Id>>, nexts: seq<nat>) {
    && Written(order, d) && |d.gens| == |lists| == |nexts|
    && forall k :: 0 <= k < |lists| ==> d.gens[k] == Generation(lists[k], nexts[k], false)
  }

  ghost predicate CanBeAt(order: set<Id>, lists: seq<seq<Id>>, nexts: seq<nat>) {
    exists d :: Reaches(order, NO_TICKETS, d) && At(order, d, lists, nexts)
  }

  ghost predicate Lists(order: set<Id>, lists: seq<seq<Id>>) {
    forall k :: 0 <= k < |lists| ==> NoDuplicates(lists[k]) && Elements(lists[k]) == order
  }

  function Zeros(n: nat): (zeros: seq<nat>)
    ensures |zeros| == n && forall k :: 0 <= k < n ==> zeros[k] == 0
  {
    seq(n, k => 0)
  }

  lemma {:induction false} AllStarted(order: set<Id>, lists: seq<seq<Id>>)
    requires Lists(order, lists)
    ensures CanBeAt(order, lists, Zeros(|lists|))
    decreases |lists|
  {
    if lists == [] {
      assert ValidMoves(order, NO_TICKETS, []) && RunMoves(order, NO_TICKETS, []) == NO_TICKETS;
      assert Reaches(order, NO_TICKETS, NO_TICKETS) && At(order, NO_TICKETS, lists, Zeros(0));
    } else {
      var n := |lists| - 1;
      AllStarted(order, lists[..n]);
      var d :| Reaches(order, NO_TICKETS, d) && At(order, d, lists[..n], Zeros(n));
      ReachesMore(order, NO_TICKETS, d, Start(lists[n]));
      MoveWritten(order, d, Start(lists[n]));
      assert At(order, DoMove(order, d, Start(lists[n])), lists, Zeros(|lists|));
    }
  }

  lemma SaveOneMore(order: set<Id>, lists: seq<seq<Id>>, nexts: seq<nat>, stops: seq<nat>, k: nat)
    requires Lists(order, lists) && Stops(lists, stops) && CanBeAt(order, lists, nexts) && |nexts| == |lists|
    requires k < |lists| && nexts[k] < stops[k] && forall j :: 0 <= j < |lists| ==> nexts[j] <= stops[j]
    ensures CanBeAt(order, lists, nexts[k := nexts[k] + 1])
  {
    var d :| Reaches(order, NO_TICKETS, d) && At(order, d, lists, nexts);
    NotYetSaved(order, d, lists, nexts, stops, k);
    ReachesMore(order, NO_TICKETS, d, SaveNext(k));
    MoveWritten(order, d, SaveNext(k));
    assert At(order, DoMove(order, d, SaveNext(k)), lists, nexts[k := nexts[k] + 1]);
  }

  lemma NotYetSaved(order: set<Id>, d: Desk, lists: seq<seq<Id>>, nexts: seq<nat>, stops: seq<nat>, k: nat)
    requires Lists(order, lists) && Stops(lists, stops) && At(order, d, lists, nexts)
    requires k < |lists| && nexts[k] < stops[k] && forall j :: 0 <= j < |lists| ==> nexts[j] <= stops[j]
    ensures lists[k][nexts[k]] !in d.tickets
  {
    var r := lists[k][nexts[k]];
    forall l | 0 <= l < |lists| ensures r !in lists[l][..nexts[l]] {
      Prefixes(lists[l], nexts[l], stops[l]);
    }
  }

  lemma Prefixes(q: seq<Id>, n: nat, stop: nat)
    requires n <= stop <= |q|
    ensures forall r :: r in q[..n] ==> r in q[..stop]
  {
    assert q[..stop][..n] == q[..n];
  }

  function Left(nexts: seq<nat>, stops: seq<nat>): nat
    requires |nexts| == |stops| && forall k :: 0 <= k < |nexts| ==> nexts[k] <= stops[k]
  {
    if nexts == [] then 0 else stops[0] - nexts[0] + Left(nexts[1..], stops[1..])
  }

  lemma {:induction false} LeftAfter(nexts: seq<nat>, stops: seq<nat>, k: nat)
    requires |nexts| == |stops| && (forall j :: 0 <= j < |nexts| ==> nexts[j] <= stops[j])
    requires k < |nexts| && nexts[k] < stops[k]
    ensures Left(nexts[k := nexts[k] + 1], stops) == Left(nexts, stops) - 1
  {
    if k == 0 {
      assert nexts[k := nexts[k] + 1][1..] == nexts[1..];
    } else {
      assert nexts[k := nexts[k] + 1][1..] == nexts[1..][k - 1 := nexts[k] + 1];
      LeftAfter(nexts[1..], stops[1..], k - 1);
    }
  }

  lemma {:induction false} AllSaved(order: set<Id>, lists: seq<seq<Id>>, nexts: seq<nat>, stops: seq<nat>)
    requires Lists(order, lists) && Stops(lists, stops) && CanBeAt(order, lists, nexts) && |nexts| == |lists|
    requires forall j :: 0 <= j < |lists| ==> nexts[j] <= stops[j]
    ensures CanBeAt(order, lists, stops)
    decreases Left(nexts, stops)
  {
    if k: nat :| k < |lists| && nexts[k] < stops[k] {
      SaveOneMore(order, lists, nexts, stops, k);
      LeftAfter(nexts, stops, k);
      AllSaved(order, lists, nexts[k := nexts[k] + 1], stops);
    } else {
      assert nexts == stops;
    }
  }

  /** All have saved up to their stops, and the first n have ended there. */
  ghost predicate EndedAt(order: set<Id>, d: Desk, lists: seq<seq<Id>>, stops: seq<nat>, n: nat) {
    && Written(order, d) && |d.gens| == |lists| == |stops|
    && forall k :: 0 <= k < |lists| ==> d.gens[k] == Generation(lists[k], stops[k], k < n && stops[k] < |lists[k]|)
  }

  lemma EndOneMore(order: set<Id>, d: Desk, lists: seq<seq<Id>>, stops: seq<nat>, n: nat)
    requires Reaches(order, NO_TICKETS, d) && Stops(lists, stops) && n < |lists| && EndedAt(order, d, lists, stops, n)
    ensures exists e :: Reaches(order, NO_TICKETS, e) && EndedAt(order, e, lists, stops, n + 1)
  {
    if stops[n] == |lists[n]| {
      assert EndedAt(order, d, lists, stops, n + 1);
    } else {
      var r := lists[n][stops[n]];
      assert Nexts(d.gens) == stops;
      TicketedByLists(order, d, lists, r);
      ReachesMore(order, NO_TICKETS, d, SaveNext(n));
      MoveWritten(order, d, SaveNext(n));
      assert EndedAt(order, DoMove(order, d, SaveNext(n)), lists, stops, n + 1);
    }
  }

  lemma {:induction false} AllEnded(order: set<Id>, lists: seq<seq<Id>>, stops: seq<nat>, n: nat)
    requires Stops(lists, stops) && CanBeAt(order, lists, stops) && n <= |lists|
    ensures exists d :: Reaches(order, NO_TICKETS, d) && EndedAt(order, d, lists, stops, n)
  {
    if n == 0 {
      var d :| Reaches(order, NO_TICKETS, d) && At(order, d, lists, stops);
      assert EndedAt(order, d, lists, stops, 0);
    } else {
      AllEnded(order, lists, stops, n - 1);
      var d :| Reaches(order, NO_TICKETS, d) && EndedAt(order, d, lists, stops, n - 1);
      EndOneMore(order, d, lists, stops, n - 1);
    }
  }

  ghost predicate StopsMiss(order: set<Id>, lists: seq<seq<Id>>, stops: seq<nat>) {
    Stops(lists, stops) && exists r :: r in order && !SavedBySome(lists, stops, r)
  }

  /**
   * The exact condition on the row orders the queries return, for any number of payments of one order: the generations
   * can strand a reservation if and only if there are stops in these orders at which each runs into a row another one
   * saved, and which together miss a row.
   */
  lemma StrandsIff(order: set<Id>, lists: seq<seq<Id>>)
    requires Lists(order, lists)
    ensures CanStrand(order, lists) <==> exists stops :: StopsMiss(order, lists, stops)
  {
    if CanStrand(order, lists) {
      var d :| Reaches(order, NO_TICKETS, d) && Stranded(order, d, lists);
      var ms :| ValidMoves(order, NO_TICKETS, ms) && RunMoves(order, NO_TICKETS, ms) == d;
      AlwaysApart(order, NO_TICKETS, ms);
      ApartLists(d.gens, lists);
      var r :| r in order && r !in d.tickets;
      StrandedStops(order, d, lists, r);
    }
    if stops :| StopsMiss(order, lists, stops) {
      AllStarted(order, lists);
      AllSaved(order, lists, Zeros(|lists|), stops);
      AllEnded(order, lists, stops, |lists|);
      var d :| Reaches(order, NO_TICKETS, d) && EndedAt(order, d, lists, stops, |lists|);
      MissedIsStranded(order, d, lists, stops);
    }
  }

  lemma MissedIsStranded(order: set<Id>, d: Desk, lists: seq<seq<Id>>, stops: seq<nat>)
    requires StopsMiss(order, lists, stops) && EndedAt(order, d, lists, stops, |lists|)
    ensures Stranded(order, d, lists)
  {
    var r :| r in order && !SavedBySome(lists, stops, r);
    assert Nexts(d.gens) == stops;
    TicketedByLists(order, d, lists, r);
  }

  lemma RunMove(order: set<Id>, d: Desk, m: Move, e: Desk, rest: seq<Move>)
    requires CanMove(order, d, m) && DoMove(order, d, m) == e && ValidMoves(order, e, rest)
    ensures ValidMoves(order, d, [m] + rest) && RunMoves(order, d, [m] + rest) == RunMoves(order, e, rest)
  {
    assert ([m] + rest)[1..] == rest;
  }

  /**
   * With different row orders two payments of one order can stop each other, and a reservation is left without a
   * ticket.
   */
  lemma TwoGenerationsStopEachOther(a: Id, b: Id, c: Id)
    requires a != b && b != c && c != a
    ensures var ms := [Start([a, b, c])] +
            ([Start([b, a, c])] + ([SaveNext(0)] + ([SaveNext(1)] + ([SaveNext(0)] + ([SaveNext(1)] + [])))));
            && ValidMoves({a, b, c}, NO_TICKETS, ms)
            && var d := RunMoves({a, b, c}, NO_TICKETS, ms);
               c !in d.tickets && |d.gens| == 2 && d.gens[0].threw && d.gens[1].threw
  {
    var order := {a, b, c};
    var first, second := Generation([a, b, c], 0, false), Generation([b, a, c], 0, false);
    assert Elements([a, b, c]) == order && Elements([b, a, c]) == order;
    var ta := map[a := Note(2, false)];
    var tb := ta[b := Note(3, false)];
    var d1 := Desk(map[], [first], [], 1);
    var d2 := Desk(map[], [first, second], [], 2);
    var d3 := Desk(ta, [first.(next := 1), second], [], 3);
    var d4 := Desk(tb, [first.(next := 1), second.(next := 1)], [], 4);
    var d5 := Desk(tb, [first.(next := 1, threw := true), second.(next := 1)], [], 5);
    var d6 := Desk(tb, [first.(next := 1, threw := true), second.(next := 1, threw := true)], [], 6);
    RunMove(order, d5, SaveNext(1), d6, []);
    RunMove(order, d4, SaveNext(0), d5, [SaveNext(1)] + []);
    RunMove(order, d3, SaveNext(1), d4, [SaveNext(0)] + ([SaveNext(1)] + []));
    RunMove(order, d2, SaveNext(0), d3, [SaveNext(1)] + ([SaveNext(0)] + ([SaveNext(1)] + [])));
    RunMove(order, d1, Start([b, a, c]), d2, [SaveNext(0)] + ([SaveNext(1)] + ([SaveNext(0)] + ([SaveNext(1)] + []))));
    RunMove(order, NO_TICKETS, Start([a, b, c]), d1,
            [Start([b, a, c])] + ([SaveNext(0)] + ([SaveNext(1)] + ([SaveNext(0)] + ([SaveNext(1)] + [])))));
  }
}
